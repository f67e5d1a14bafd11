/** The fixed question bank (src/data/questions.ts). Question and option labels, help texts and
    placeholders are presentation only and are left out. */
module Questions {

  datatype QuestionType =
    | OpenEnded
    | MultipleChoice(options: seq<string>, multiSelect: bool)
    | Scale(min: int, max: int)

  datatype Question = Question(id: string, kind: QuestionType)

  const Bank: seq<Question> := [
    Question("manual_processes", OpenEnded),
    Question("bottlenecks", MultipleChoice(
      ["it_support", "asset_management", "change_management", "incident_resolution",
       "cross_dept_communication", "approval_workflows"], true)),
    Question("service_disruptions", Scale(1, 5)),
    Question("leadership_visibility", Scale(1, 5)),
    Question("tool_integration", MultipleChoice(
      ["fully_integrated", "partial_integration", "minimal_integration", "complete_silos"], false)),
    Question("incident_response", MultipleChoice(
      ["minutes", "hours", "day", "days", "week_plus"], false)),
    Question("automation_priority", MultipleChoice(
      ["it_service", "hr", "finance", "operations", "customer_service", "facilities"], true)),
    Question("compliance_visibility", Scale(1, 5))
  ]

  /** The options offered by the first question of `qs` with id `id`; empty for unknown ids
      and for questions that are not multiple choice. */
  function OptionsIn(qs: seq<Question>, id: string): seq<string> {
    if qs == [] then []
    else if qs[0].id == id then
      (if qs[0].kind.MultipleChoice? then qs[0].kind.options else [])
    else OptionsIn(qs[1..], id)
  }

  function OptionsOf(id: string): seq<string> {
    OptionsIn(Bank, id)
  }

  /** Eight questions with pairwise distinct ids. */
  lemma BankShape()
    ensures |Bank| == 8
    ensures forall i, j :: 0 <= i < j < |Bank| ==> Bank[i].id != Bank[j].id
  {
  }

  /** Every scale question runs from 1 to 5, and the scale questions are exactly
      service_disruptions, leadership_visibility and compliance_visibility. */
  lemma ScaleBounds()
    ensures forall q :: q in Bank && q.kind.Scale? ==> q.kind.min == 1 && q.kind.max == 5
    ensures forall q :: q in Bank ==>
      (q.kind.Scale? <==> q.id in ["service_disruptions", "leadership_visibility", "compliance_visibility"])
  {
  }

  /** Only bottlenecks and automation_priority allow several options. */
  lemma MultiSelectQuestions()
    ensures forall q :: q in Bank ==>
      (q.kind.MultipleChoice? && q.kind.multiSelect <==> q.id in ["bottlenecks", "automation_priority"])
  {
  }

  /** Option values are distinct within each multiple-choice question. */
  lemma OptionsDistinct()
    ensures forall q :: q in Bank && q.kind.MultipleChoice? ==>
      forall i, j :: 0 <= i < j < |q.kind.options| ==> q.kind.options[i] != q.kind.options[j]
  {
    forall q | q in Bank && q.kind.MultipleChoice? ensures Distinct(q.kind.options) {
      var k :| 0 <= k < |Bank| && Bank[k] == q;
      QuestionOptionsDistinct(k);
    }
  }

  /** No value occurs twice. */
  ghost predicate Distinct(s: seq<string>) {
    forall i, j :: 0 <= i < j < |s| ==> s[i] != s[j]
  }

  lemma QuestionOptionsDistinct(k: nat)
    requires k < |Bank| && Bank[k].kind.MultipleChoice?
    ensures Distinct(Bank[k].kind.options)
  {
    if k == 1 {
      FirstOptionsDistinct();
    } else if k == 4 {
      assert Distinct(Bank[4].kind.options);
    } else if k == 5 {
      assert Distinct(Bank[5].kind.options);
    } else if k == 6 {
      LastOptionsDistinct();
    }
  }

  lemma FirstOptionsDistinct()
    ensures Distinct(Bank[1].kind.options)
  {
  }

  lemma LastOptionsDistinct()
    ensures Distinct(Bank[6].kind.options)
  {
  }

  /** Every literal a scoring rule, an advice or an insight tests for is an option the
      matching question offers. */
  lemma RuleLiteralsOffered()
    ensures "it_support" in OptionsOf("bottlenecks") && "incident_resolution" in OptionsOf("bottlenecks")
    ensures "cross_dept_communication" in OptionsOf("bottlenecks") && "approval_workflows" in OptionsOf("bottlenecks")
    ensures "day" in OptionsOf("incident_response") && "days" in OptionsOf("incident_response")
    ensures "week_plus" in OptionsOf("incident_response")
    ensures "hr" in OptionsOf("automation_priority") && "customer_service" in OptionsOf("automation_priority")
    ensures "minimal_integration" in OptionsOf("tool_integration") && "complete_silos" in OptionsOf("tool_integration")
  {
    assert OptionsOf("bottlenecks") == Bank[1].kind.options;
    assert OptionsOf("tool_integration") == Bank[4].kind.options;
    assert OptionsOf("incident_response") == Bank[5].kind.options;
    assert OptionsOf("automation_priority") == Bank[6].kind.options;
  }
}
