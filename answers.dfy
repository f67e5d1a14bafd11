/** Answers as the questionnaire records them, the lookups the components run over an answer
    list, and the upsert that keeps one answer per question. */
module Answers {
  import opened Wrappers

  /** `string | number | string[]`: free text or a single choice, a scale value, or the
      choices of a multi-select question. */
  datatype Value = Text(text: string) | Number(number: int) | List(items: seq<string>)

  datatype Answer = Answer(questionId: string, value: Value)

  /** At most one answer per question id. */
  ghost predicate UniqueIds(answers: seq<Answer>) {
    forall i, j :: 0 <= i < j < |answers| ==> answers[i].questionId != answers[j].questionId
  }

  /** `answers.some(p)`. */
  function AnyAnswer(answers: seq<Answer>, p: Answer -> bool): (r: bool)
    ensures r <==> exists i :: 0 <= i < |answers| && p(answers[i])
  {
    if answers == [] then false
    else p(answers[0]) || AnyAnswer(answers[1..], p)
  }

  /** Whether some stored answer carries question id `id`. */
  function HasAnswer(answers: seq<Answer>, id: string): bool {
    AnyAnswer(answers, (a: Answer) => a.questionId == id)
  }

  /** `answers.find(a => a.questionId === id)?.value`: the value of the first answer to `id`. */
  function FindValue(answers: seq<Answer>, id: string): (r: Option<Value>)
    ensures r.None? <==> forall i :: 0 <= i < |answers| ==> answers[i].questionId != id
    ensures r.Some? ==> exists k :: (0 <= k < |answers| && answers[k].questionId == id
      && r.value == answers[k].value
      && forall i :: 0 <= i < k ==> answers[i].questionId != id)
  {
    if answers == [] then None
    else if answers[0].questionId == id then Some(answers[0].value)
    else FindValue(answers[1..], id)
  }

  /** `answers.filter(a => a.questionId !== id)`. */
  function Without(answers: seq<Answer>, id: string): (r: seq<Answer>)
    ensures |r| <= |answers|
    ensures forall a :: a in r <==> a in answers && a.questionId != id
  {
    if answers == [] then []
    else if answers[0].questionId == id then Without(answers[1..], id)
    else [answers[0]] + Without(answers[1..], id)
  }

  /** `[...answers.filter(a => a.questionId !== answer.questionId), answer]`. */
  function Upsert(answers: seq<Answer>, answer: Answer): seq<Answer> {
    Without(answers, answer.questionId) + [answer]
  }

  /** The number of answers to question `id`. */
  function CountId(answers: seq<Answer>, id: string): nat {
    if answers == [] then 0
    else (if answers[0].questionId == id then 1 else 0) + CountId(answers[1..], id)
  }

  lemma {:induction false} WithoutLength(answers: seq<Answer>, id: string)
    ensures |Without(answers, id)| == |answers| - CountId(answers, id)
  {
    if answers != [] {
      WithoutLength(answers[1..], id);
    }
  }

  lemma {:induction false} CountUnique(answers: seq<Answer>, id: string)
    requires UniqueIds(answers)
    ensures CountId(answers, id) == if HasAnswer(answers, id) then 1 else 0
  {
    if answers != [] {
      CountUnique(answers[1..], id);
      if answers[0].questionId == id {
        assert !HasAnswer(answers[1..], id) by {
          forall i | 0 <= i < |answers| - 1 ensures answers[1..][i].questionId != id {
            assert answers[1..][i] == answers[i + 1];
          }
        }
      }
      assert HasAnswer(answers[1..], id) ==> HasAnswer(answers, id) by {
        if HasAnswer(answers[1..], id) {
          var i :| 0 <= i < |answers| - 1 && answers[1..][i].questionId == id;
          assert answers[i + 1].questionId == id;
        }
      }
    }
  }

  lemma {:induction false} WithoutKeepsUnique(answers: seq<Answer>, id: string)
    requires UniqueIds(answers)
    ensures UniqueIds(Without(answers, id))
  {
    if answers != [] {
      assert UniqueIds(answers[1..]) by {
        forall i, j | 0 <= i < j < |answers| - 1
          ensures answers[1..][i].questionId != answers[1..][j].questionId
        {
          assert answers[1..][i] == answers[i + 1] && answers[1..][j] == answers[j + 1];
        }
      }
      WithoutKeepsUnique(answers[1..], id);
      var rest := Without(answers[1..], id);
      if answers[0].questionId != id {
        forall a | a in rest ensures a.questionId != answers[0].questionId {
          var k :| 0 <= k < |answers| - 1 && answers[1..][k] == a;
          assert answers[k + 1] == a;
        }
      }
    }
  }

  lemma {:induction false} WithoutIdempotent(answers: seq<Answer>, id: string)
    ensures Without(Without(answers, id), id) == Without(answers, id)
  {
    if answers != [] {
      WithoutIdempotent(answers[1..], id);
      if answers[0].questionId != id {
        assert ([answers[0]] + Without(answers[1..], id))[1..] == Without(answers[1..], id);
      }
    }
  }

  lemma {:induction false} WithoutAppend(answers: seq<Answer>, extra: seq<Answer>, id: string)
    ensures Without(answers + extra, id) == Without(answers, id) + Without(extra, id)
  {
    if answers == [] {
      assert answers + extra == extra;
    } else {
      assert (answers + extra)[1..] == answers[1..] + extra;
      WithoutAppend(answers[1..], extra, id);
    }
  }

  lemma {:induction false} FindValueWithout(answers: seq<Answer>, id: string, other: string)
    requires other != id
    ensures FindValue(Without(answers, id), other) == FindValue(answers, other)
  {
    if answers != [] {
      FindValueWithout(answers[1..], id, other);
      if answers[0].questionId != id {
        assert ([answers[0]] + Without(answers[1..], id))[1..] == Without(answers[1..], id);
      }
    }
  }

  lemma {:induction false} FindValueAppend(answers: seq<Answer>, answer: Answer, id: string)
    ensures FindValue(answers + [answer], id) ==
      if HasAnswer(answers, id) then FindValue(answers, id)
      else if answer.questionId == id then Some(answer.value) else None
  {
    if answers != [] {
      assert (answers + [answer])[1..] == answers[1..] + [answer];
      FindValueAppend(answers[1..], answer, id);
      if HasAnswer(answers[1..], id) {
        var i :| 0 <= i < |answers| - 1 && answers[1..][i].questionId == id;
        assert answers[i + 1].questionId == id;
      }
    }
  }

  /** After the upsert the new answer is the last one stored, no other stored answer has its
      question id, and looking the question up yields the new value. */
  lemma UpsertStoresAnswer(answers: seq<Answer>, answer: Answer)
    ensures var r := Upsert(answers, answer);
      && r[|r| - 1] == answer
      && (forall i :: 0 <= i < |r| - 1 ==> r[i].questionId != answer.questionId)
      && CountId(r, answer.questionId) == 1
      && FindValue(r, answer.questionId) == Some(answer.value)
  {
    var w := Without(answers, answer.questionId);
    var r := w + [answer];
    forall i | 0 <= i < |r| - 1 ensures r[i].questionId != answer.questionId {
      assert r[i] == w[i] && w[i] in w;
    }
    CountAppendOne(w, answer);
    WithoutLength(w, answer.questionId);
    assert Without(w, answer.questionId) == w by { WithoutIdempotent(answers, answer.questionId); }
    FindValueAppend(w, answer, answer.questionId);
  }

  lemma {:induction false} CountAppendOne(answers: seq<Answer>, answer: Answer)
    ensures CountId(answers + [answer], answer.questionId) == CountId(answers, answer.questionId) + 1
  {
    if answers != [] {
      assert (answers + [answer])[1..] == answers[1..] + [answer];
      CountAppendOne(answers[1..], answer);
    }
  }

  /** Answers to other questions keep their values and their relative order. */
  lemma UpsertKeepsOthers(answers: seq<Answer>, answer: Answer, other: string)
    requires other != answer.questionId
    ensures FindValue(Upsert(answers, answer), other) == FindValue(answers, other)
    ensures Without(Upsert(answers, answer), answer.questionId) == Without(answers, answer.questionId)
  {
    var w := Without(answers, answer.questionId);
    FindValueAppend(w, answer, other);
    FindValueWithout(answers, answer.questionId, other);
    if !HasAnswer(w, other) {
      assert FindValue(w, other).None?;
    }
    WithoutAppend(w, [answer], answer.questionId);
    WithoutIdempotent(answers, answer.questionId);
    assert Without([answer], answer.questionId) == [];
  }

  /** One answer per question is an invariant of the upsert; the store grows by one exactly
      when the question had no answer yet. */
  lemma UpsertKeepsUnique(answers: seq<Answer>, answer: Answer)
    requires UniqueIds(answers)
    ensures UniqueIds(Upsert(answers, answer))
    ensures |Upsert(answers, answer)| == |answers| + if HasAnswer(answers, answer.questionId) then 0 else 1
  {
    var w := Without(answers, answer.questionId);
    WithoutKeepsUnique(answers, answer.questionId);
    forall i | 0 <= i < |w| ensures w[i].questionId != answer.questionId {
      assert w[i] in w;
    }
    WithoutLength(answers, answer.questionId);
    CountUnique(answers, answer.questionId);
  }

  /** Answering the same question twice leaves the store as if only the second answer had been
      given. */
  lemma UpsertTwice(answers: seq<Answer>, first: Answer, second: Answer)
    requires first.questionId == second.questionId
    ensures Upsert(Upsert(answers, first), second) == Upsert(answers, second)
  {
    var id := first.questionId;
    WithoutAppend(Without(answers, id), [first], id);
    WithoutIdempotent(answers, id);
    assert Without([first], id) == [];
  }

  // Signals: the single-answer tests that the scoring rules and the result views share.

  /** `incident_response` is one of `day`, `days`, `week_plus`. */
  predicate SlowIncidentResponse(a: Answer) {
    a.questionId == "incident_response" && a.value.Text? && a.value.text in ["day", "days", "week_plus"]
  }

  /** `service_disruptions` is a number above `bound`. */
  predicate DisruptionsAbove(a: Answer, bound: int) {
    a.questionId == "service_disruptions" && a.value.Number? && a.value.number > bound
  }

  /** `leadership_visibility` is a number below `bound`. */
  predicate VisibilityBelow(a: Answer, bound: int) {
    a.questionId == "leadership_visibility" && a.value.Number? && a.value.number < bound
  }

  /** `tool_integration` is `minimal_integration` or `complete_silos`. */
  predicate IntegrationGap(a: Answer) {
    a.questionId == "tool_integration" && a.value.Text? && a.value.text in ["minimal_integration", "complete_silos"]
  }

  /** `automation_priority` is a list that contains `area`. */
  predicate AutomationWanted(a: Answer, area: string) {
    a.questionId == "automation_priority" && a.value.List? && area in a.value.items
  }

  /** `bottlenecks` is a list that contains `it_support` or `incident_resolution`. */
  predicate ServiceBottleneck(a: Answer) {
    a.questionId == "bottlenecks" && a.value.List?
      && ("it_support" in a.value.items || "incident_resolution" in a.value.items)
  }

  /** `bottlenecks` is a non-empty list. */
  predicate BottlenecksReported(a: Answer) {
    a.questionId == "bottlenecks" && a.value.List? && |a.value.items| > 0
  }

  /** `manual_processes` is a non-empty string (white space counts). */
  predicate ManualProcessesDescribed(a: Answer) {
    a.questionId == "manual_processes" && a.value.Text? && |a.value.text| > 0
  }
}
