/** The executive summary (src/components/Results/ExecutiveSummary.tsx): the key benefit of
    each top module, the strategic insights drawn from the answers, and the industry whose
    resources are linked. Insight texts and URLs are abstracted to named values. */
module ExecutiveSummary {
  import opened Wrappers
  import opened Answers
  import opened Catalog
  import opened RecommendationEngine
  import opened Results

  // Key benefits: `module.benefits[0]`.

  /** The first benefit of a module, if it lists any. */
  function KeyBenefit(m: RankedModule): (benefit: Option<string>)
    ensures benefit.Some? <==> |m.entry.benefits| > 0
    ensures benefit.Some? ==> benefit.value in m.entry.benefits
  {
    if |m.entry.benefits| > 0 then Some(m.entry.benefits[0]) else None
  }

  /** The benefits shown for the top modules of a list, in rank order. */
  function KeyBenefits(modules: seq<RankedModule>): (benefits: seq<Option<string>>)
    ensures |benefits| == |TopModules(modules)|
  {
    var top := TopModules(modules);
    seq(|top|, i requires 0 <= i < |top| => KeyBenefit(top[i]))
  }

  /** Every module of an engine ranking lists four benefits, so each of the three summarised
      modules shows the first benefit of its catalog entry. */
  lemma KeyBenefitsOfRecommendations(answers: seq<Answer>)
    ensures var shown := KeyBenefits(Recommendations(answers));
      |shown| == 3
      && forall i :: 0 <= i < 3 ==>
        Recommendations(answers)[i].entry in Modules
        && |Recommendations(answers)[i].entry.benefits| == 4
        && shown[i] == Some(Recommendations(answers)[i].entry.benefits[0])
  {
    TopOfRanking(answers);
    RecommendationsPermuteCatalog(answers);
    CatalogBenefits();
  }

  // Strategic insights: `getStrategicInsights`.

  datatype StrategicInsight =
    | CrossDepartmentCollaboration | WorkflowAutomation | ExecutiveVisibility
    | PlatformUnification | DigitalTransformation

  function InsightTitle(insight: StrategicInsight): string {
    match insight
    case CrossDepartmentCollaboration => "Cross-Department Collaboration"
    case WorkflowAutomation => "Workflow Automation"
    case ExecutiveVisibility => "Executive Visibility"
    case PlatformUnification => "Platform Unification"
    case DigitalTransformation => "Digital Transformation"
  }

  function InsightRank(insight: StrategicInsight): nat {
    match insight
    case CrossDepartmentCollaboration => 0
    case WorkflowAutomation => 1
    case ExecutiveVisibility => 2
    case PlatformUnification => 3
    case DigitalTransformation => 4
  }

  /** The insights are in the order they are checked, none twice. */
  predicate Increasing(insights: seq<StrategicInsight>) {
    forall i, j :: 0 <= i < j < |insights| ==> InsightRank(insights[i]) < InsightRank(insights[j])
  }

  /** Whether `sub` occurs in `s` as a contiguous piece. */
  predicate HasSubstring(s: string, sub: string) {
    exists i | 0 <= i <= |s| - |sub| :: OccursAt(s, sub, i)
  }

  predicate OccursAt(s: string, sub: string, i: int) {
    0 <= i && i + |sub| <= |s| && s[i..i + |sub|] == sub
  }

  /** `value.includes(item)`: list membership for a list, a substring test for a string, and a
      TypeError (None) for a number, which has no `includes`. */
  function Includes(v: Value, item: string): Option<bool> {
    match v
    case List(items) => Some(item in items)
    case Text(text) => Some(HasSubstring(text, item))
    case Number(_) => None
  }

  /** The bottleneck list the insights read: the value of the FIRST `bottlenecks` answer. */
  function BottleneckValue(answers: seq<Answer>): Option<Value> {
    FindValue(answers, "bottlenecks")
  }

  /** The first `bottlenecks` answer mentions `item`. */
  predicate Mentions(answers: seq<Answer>, item: string) {
    BottleneckValue(answers).Some? && Includes(BottleneckValue(answers).value, item) == Some(true)
  }

  /** The bottleneck insights are looked at: some `bottlenecks` answer is a non-empty list. */
  predicate BottlenecksChecked(answers: seq<Answer>) {
    exists a | a in answers :: BottlenecksReported(a)
  }

  /** The bottleneck insights are looked at, but the first `bottlenecks` answer is a number:
      `includes` throws. */
  predicate ThrowsTypeError(answers: seq<Answer>) {
    BottlenecksChecked(answers) && BottleneckValue(answers).Some? && BottleneckValue(answers).value.Number?
  }

  /** The bottleneck insights are looked at and the first `bottlenecks` answer mentions `item`. */
  predicate CallsFor(answers: seq<Answer>, item: string) {
    BottlenecksChecked(answers) && Mentions(answers, item)
  }

  /** Some answer rates process visibility below 3. */
  predicate LowVisibility(answers: seq<Answer>) {
    exists a | a in answers :: VisibilityBelow(a, 3)
  }

  /** Some answer reports an integration gap. */
  predicate IntegrationLacking(answers: seq<Answer>) {
    exists a | a in answers :: IntegrationGap(a)
  }

  /** The insights whose need the answers show, in the order they are checked. */
  function Fired(answers: seq<Answer>): seq<StrategicInsight> {
    FiredOf(CallsFor(answers, "cross_dept_communication"), CallsFor(answers, "approval_workflows"),
      LowVisibility(answers), IntegrationLacking(answers))
  }

  /** The insights pushed, one check after the other. */
  function FiredOf(crossDept: bool, approvals: bool, visibility: bool, integration: bool): seq<StrategicInsight> {
    var none: seq<StrategicInsight> := [];
    var s1 := if crossDept then none + [CrossDepartmentCollaboration] else none;
    var s2 := if approvals then s1 + [WorkflowAutomation] else s1;
    var s3 := if visibility then s2 + [ExecutiveVisibility] else s2;
    if integration then s3 + [PlatformUnification] else s3
  }

  /** The insights shown: those fired, or the general one when none is. */
  function WithDefault(fired: seq<StrategicInsight>): seq<StrategicInsight> {
    if fired == [] then [DigitalTransformation] else fired
  }

  /** `getStrategicInsights`: the fired insights or the default, or a failure when `includes`
      is called on a number (StrategicInsightsShown states what is shown). */
  method GetStrategicInsights(answers: seq<Answer>) returns (r: Result<seq<StrategicInsight>, string>)
    ensures r.Failure? <==> ThrowsTypeError(answers)
    ensures r.Success? ==> r.value == WithDefault(Fired(answers))
  {
    var insights := [];
    if exists a | a in answers :: BottlenecksReported(a) {
      CheckedHasValue(answers);
      var bottlenecks := BottleneckValue(answers);
      if bottlenecks.None? || bottlenecks.value.Number? {
        return Failure("bottlenecks.includes is not a function");
      }
      if Includes(bottlenecks.value, "cross_dept_communication") == Some(true) {
        insights := insights + [CrossDepartmentCollaboration];
      }
      if Includes(bottlenecks.value, "approval_workflows") == Some(true) {
        insights := insights + [WorkflowAutomation];
      }
    }
    ghost var crossDept := CallsFor(answers, "cross_dept_communication");
    ghost var approvals := CallsFor(answers, "approval_workflows");
    assert insights == FiredOf(crossDept, approvals, false, false);
    if LowVisibility(answers) {
      insights := insights + [ExecutiveVisibility];
    }
    if IntegrationLacking(answers) {
      insights := insights + [PlatformUnification];
    }
    if |insights| == 0 {
      insights := insights + [DigitalTransformation];
    }
    return Success(insights);
  }

  /** When the check passes there is a `bottlenecks` answer to read. */
  lemma CheckedHasValue(answers: seq<Answer>)
    requires BottlenecksChecked(answers)
    ensures BottleneckValue(answers).Some?
  {
    var a :| a in answers && BottlenecksReported(a);
    var k :| 0 <= k < |answers| && answers[k] == a;
    assert answers[k].questionId == "bottlenecks";
  }

  /** Each insight is shown exactly when its need shows in the answers, at most once and in
      the order checked; the general insight exactly when no other is, so one to four
      insights are shown. */
  lemma StrategicInsightsShown(answers: seq<Answer>)
    ensures var shown := WithDefault(Fired(answers));
      (CrossDepartmentCollaboration in shown <==> CallsFor(answers, "cross_dept_communication"))
      && (WorkflowAutomation in shown <==> CallsFor(answers, "approval_workflows"))
      && (ExecutiveVisibility in shown <==> exists a :: a in answers && VisibilityBelow(a, 3))
      && (PlatformUnification in shown <==> exists a :: a in answers && IntegrationGap(a))
      && (DigitalTransformation in shown <==> shown == [DigitalTransformation])
      && (DigitalTransformation in shown <==>
        !CallsFor(answers, "cross_dept_communication") && !CallsFor(answers, "approval_workflows")
        && forall a :: a in answers ==> !VisibilityBelow(a, 3) && !IntegrationGap(a))
      && 1 <= |shown| <= 4
      && Increasing(shown)
  {
    var crossDept := CallsFor(answers, "cross_dept_communication");
    var approvals := CallsFor(answers, "approval_workflows");
    var visibility := LowVisibility(answers);
    var integration := IntegrationLacking(answers);
    ShownOfFlags(crossDept, approvals, visibility, integration);
    OrderOfFlags(crossDept, approvals, visibility, integration);
  }

  lemma ShownOfFlags(crossDept: bool, approvals: bool, visibility: bool, integration: bool)
    ensures var shown := WithDefault(FiredOf(crossDept, approvals, visibility, integration));
      (CrossDepartmentCollaboration in shown <==> crossDept)
      && (WorkflowAutomation in shown <==> approvals)
      && (ExecutiveVisibility in shown <==> visibility)
      && (PlatformUnification in shown <==> integration)
      && (DigitalTransformation in shown <==> shown == [DigitalTransformation])
      && (DigitalTransformation in shown <==> !crossDept && !approvals && !visibility && !integration)
      && 1 <= |shown| <= 4
  {
  }

  lemma OrderOfFlags(crossDept: bool, approvals: bool, visibility: bool, integration: bool)
    ensures Increasing(WithDefault(FiredOf(crossDept, approvals, visibility, integration)))
  {
    var none: seq<StrategicInsight> := [];
    var s1 := if crossDept then none + [CrossDepartmentCollaboration] else none;
    var s2 := if approvals then s1 + [WorkflowAutomation] else s1;
    var s3 := if visibility then s2 + [ExecutiveVisibility] else s2;
    if crossDept { IncreasingPush(none, CrossDepartmentCollaboration); }
    if approvals { IncreasingPush(s1, WorkflowAutomation); }
    if visibility { IncreasingPush(s2, ExecutiveVisibility); }
    if integration { IncreasingPush(s3, PlatformUnification); }
  }

  /** Pushing an insight ranked above every one already there keeps the order. */
  lemma IncreasingPush(s: seq<StrategicInsight>, x: StrategicInsight)
    requires Increasing(s)
    requires forall y :: y in s ==> InsightRank(y) < InsightRank(x)
    ensures Increasing(s + [x])
  {
    var t := s + [x];
    forall i, j | 0 <= i < j < |t| ensures InsightRank(t[i]) < InsightRank(t[j]) {
      assert t[i] == s[i] && s[i] in s;
      if j < |s| {
        assert t[j] == s[j];
      }
    }
  }

  /** With one answer per question, the answer that passes the check is the one read, so the
      insights never throw and read a list. */
  lemma BottlenecksReadFromCheckedAnswer(answers: seq<Answer>, a: Answer)
    requires UniqueIds(answers) && a in answers && BottlenecksReported(a)
    ensures BottleneckValue(answers) == Some(a.value)
    ensures !ThrowsTypeError(answers)
  {
    var k :| 0 <= k < |answers| && answers[k] == a;
    var r := BottleneckValue(answers);
    var j :| 0 <= j < |answers| && answers[j].questionId == "bottlenecks" && r.value == answers[j].value
      && forall i :: 0 <= i < j ==> answers[i].questionId != "bottlenecks";
    if j < k {
      assert false;
    } else if k < j {
      assert false;
    }
  }

  /** With two `bottlenecks` answers, an empty first one hides the second: the check passes on
      the second, but the first is read and mentions nothing. */
  lemma DuplicateBottlenecksReadFirst()
    ensures var answers := [Answer("bottlenecks", List([])), Answer("bottlenecks", List(["cross_dept_communication"]))];
      BottlenecksChecked(answers) && !Mentions(answers, "cross_dept_communication")
  {
    var answers := [Answer("bottlenecks", List([])), Answer("bottlenecks", List(["cross_dept_communication"]))];
    assert answers[1] in answers && BottlenecksReported(answers[1]);
  }

  // The industry: `getRelevantIndustry`.

  /** The industries that have a resource page. */
  const IndustryPages: set<string> := {"financial", "healthcare", "manufacturing", "telecom", "government", "education"}

  /** `getRelevantIndustry` ignores the answers and picks financial services, an industry with a
      resource page. */
  function RelevantIndustry(answers: seq<Answer>): (industry: string)
    ensures industry in IndustryPages
  {
    "financial"
  }
}
