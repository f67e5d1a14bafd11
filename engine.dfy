/** `calculateRecommendations` (src/utils/recommendationEngine.ts): every catalog module is
    scored by summing the increments of the rules its answers fire, the scored list is sorted
    stably by descending score, and each module gets its 1-based position as priority. */
module RecommendationEngine {
  import opened Catalog
  import opened Answers
  import opened Ranking

  /** A catalog module with its score and its rank (1 = most recommended). */
  datatype RankedModule = RankedModule(entry: Module, score: int, priority: int)

  // The scoring rules as a declarative table: the reference against which the source's
  // hand-written branches are checked.

  datatype Condition =
    | ListContainsAny(values: seq<string>)
    | NumberAbove(bound: int)
    | NumberBelow(bound: int)
    | TextOneOf(values: seq<string>)

  /** When an answer to `questionId` satisfies `condition`, module `moduleId` gains `increment`. */
  datatype Rule = Rule(moduleId: string, questionId: string, condition: Condition, increment: nat)

  const Rules: seq<Rule> := [
    Rule("itsm", "bottlenecks", ListContainsAny(["it_support", "incident_resolution"]), 10),
    Rule("itsm", "service_disruptions", NumberAbove(3), 15),
    Rule("itsm", "incident_response", TextOneOf(["day", "days", "week_plus"]), 20),
    Rule("itom", "service_disruptions", NumberAbove(2), 10),
    Rule("itom", "leadership_visibility", NumberBelow(3), 15),
    Rule("itbm", "leadership_visibility", NumberBelow(4), 20),
    Rule("hrsd", "automation_priority", ListContainsAny(["hr"]), 25),
    Rule("csm", "automation_priority", ListContainsAny(["customer_service"]), 25)
  ]

  predicate Holds(c: Condition, v: Value) {
    match c
    case ListContainsAny(values) => v.List? && exists x :: x in values && x in v.items
    case NumberAbove(bound) => v.Number? && v.number > bound
    case NumberBelow(bound) => v.Number? && v.number < bound
    case TextOneOf(values) => v.Text? && v.text in values
  }

  predicate Fires(r: Rule, moduleId: string, a: Answer) {
    r.moduleId == moduleId && r.questionId == a.questionId && Holds(r.condition, a.value)
  }

  function RuleSum(rules: seq<Rule>, moduleId: string, a: Answer): nat {
    if rules == [] then 0
    else (if Fires(rules[0], moduleId, a) then rules[0].increment else 0) + RuleSum(rules[1..], moduleId, a)
  }

  /** What one answer adds to the score of module `moduleId`. */
  function Increment(moduleId: string, a: Answer): nat {
    RuleSum(Rules, moduleId, a)
  }

  /** The score of module `moduleId`: the increments of all answers, in order. */
  function ScoreOf(moduleId: string, answers: seq<Answer>): nat {
    if answers == [] then 0
    else ScoreOf(moduleId, answers[..|answers| - 1]) + Increment(moduleId, answers[|answers| - 1])
  }

  function Bit(b: bool): nat {
    if b then 1 else 0
  }

  function Gain(k: nat, moduleId: string, a: Answer): nat
    requires k < |Rules|
  {
    if Fires(Rules[k], moduleId, a) then Rules[k].increment else 0
  }

  lemma IncrementUnfolded(moduleId: string, a: Answer)
    ensures Increment(moduleId, a) == Gain(0, moduleId, a) + Gain(1, moduleId, a) + Gain(2, moduleId, a)
      + Gain(3, moduleId, a) + Gain(4, moduleId, a) + Gain(5, moduleId, a) + Gain(6, moduleId, a)
      + Gain(7, moduleId, a)
  {
    RuleSumStep(0, moduleId, a);
    RuleSumStep(1, moduleId, a);
    RuleSumStep(2, moduleId, a);
    RuleSumStep(3, moduleId, a);
    RuleSumStep(4, moduleId, a);
    RuleSumStep(5, moduleId, a);
    RuleSumStep(6, moduleId, a);
    RuleSumStep(7, moduleId, a);
    assert Rules[8..] == [];
  }

  lemma RuleSumStep(k: nat, moduleId: string, a: Answer)
    requires k < |Rules|
    ensures RuleSum(Rules[k..], moduleId, a) == Gain(k, moduleId, a) + RuleSum(Rules[k + 1..], moduleId, a)
  {
    assert Rules[k..][0] == Rules[k];
    assert Rules[k..][1..] == Rules[k + 1..];
  }

  /** Each row of the table fires exactly when the matching answer test holds for its module. */
  lemma RuleRows(moduleId: string, a: Answer)
    ensures Fires(Rules[0], moduleId, a) <==> moduleId == "itsm" && ServiceBottleneck(a)
    ensures Fires(Rules[1], moduleId, a) <==> moduleId == "itsm" && DisruptionsAbove(a, 3)
    ensures Fires(Rules[2], moduleId, a) <==> moduleId == "itsm" && SlowIncidentResponse(a)
    ensures Fires(Rules[3], moduleId, a) <==> moduleId == "itom" && DisruptionsAbove(a, 2)
    ensures Fires(Rules[4], moduleId, a) <==> moduleId == "itom" && VisibilityBelow(a, 3)
    ensures Fires(Rules[5], moduleId, a) <==> moduleId == "itbm" && VisibilityBelow(a, 4)
    ensures Fires(Rules[6], moduleId, a) <==> moduleId == "hrsd" && AutomationWanted(a, "hr")
    ensures Fires(Rules[7], moduleId, a) <==> moduleId == "csm" && AutomationWanted(a, "customer_service")
  {
    var v := a.value;
    if v.List? && "incident_resolution" in v.items {
      assert "incident_resolution" in Rules[0].condition.values;
    }
    if v.List? && "it_support" in v.items {
      assert "it_support" in Rules[0].condition.values;
    }
    if v.List? && "hr" in v.items {
      assert "hr" in Rules[6].condition.values;
    }
    if v.List? && "customer_service" in v.items {
      assert "customer_service" in Rules[7].condition.values;
    }
  }

  /** The rule table, module by module, in terms of the answer tests the views share. */
  lemma IncrementByModule(moduleId: string, a: Answer)
    ensures Increment(moduleId, a) ==
      (if moduleId == "itsm" then
         10 * Bit(ServiceBottleneck(a)) + 15 * Bit(DisruptionsAbove(a, 3)) + 20 * Bit(SlowIncidentResponse(a))
       else if moduleId == "itom" then 10 * Bit(DisruptionsAbove(a, 2)) + 15 * Bit(VisibilityBelow(a, 3))
       else if moduleId == "itbm" then 20 * Bit(VisibilityBelow(a, 4))
       else if moduleId == "hrsd" then 25 * Bit(AutomationWanted(a, "hr"))
       else if moduleId == "csm" then 25 * Bit(AutomationWanted(a, "customer_service"))
       else 0)
  {
    IncrementUnfolded(moduleId, a);
    RuleRows(moduleId, a);
  }

  /** The body of the source's `answers.forEach` callback for one module, transcribed branch
      by branch: what `answer` adds to the module's running score. */
  method AnswerGain(entry: Module, answer: Answer) returns (gain: int)
    ensures gain == Increment(entry.id, answer)
  {
    gain := 0;
    var value := answer.value;
    if entry.id == "itsm" {
      if answer.questionId == "bottlenecks" && value.List?
        && ("it_support" in value.items || "incident_resolution" in value.items) {
        gain := gain + 10;
      }
      if answer.questionId == "service_disruptions" && value.Number? && value.number > 3 {
        gain := gain + 15;
      }
      if answer.questionId == "incident_response"
        && (value == Text("day") || value == Text("days") || value == Text("week_plus")) {
        gain := gain + 20;
      }
    }
    if entry.id == "itom" {
      if answer.questionId == "service_disruptions" && value.Number? && value.number > 2 {
        gain := gain + 10;
      }
      if answer.questionId == "leadership_visibility" && value.Number? && value.number < 3 {
        gain := gain + 15;
      }
    }
    if entry.id == "itbm" {
      if answer.questionId == "leadership_visibility" && value.Number? && value.number < 4 {
        gain := gain + 20;
      }
    }
    if entry.id == "hrsd" {
      if answer.questionId == "automation_priority" && value.List? && "hr" in value.items {
        gain := gain + 25;
      }
    }
    if entry.id == "csm" {
      if answer.questionId == "automation_priority" && value.List? && "customer_service" in value.items {
        gain := gain + 25;
      }
    }
    IncrementByModule(entry.id, answer);
  }

  /** The scoring loop of the source: `let score = 0`, then `answers.forEach` adds each
      answer's gain in turn. */
  method ComputeScore(entry: Module, answers: seq<Answer>) returns (score: int)
    ensures score == ScoreOf(entry.id, answers)
  {
    score := 0;
    for i := 0 to |answers|
      invariant score == ScoreOf(entry.id, answers[..i])
    {
      var gain := AnswerGain(entry, answers[i]);
      score := score + gain;
      assert answers[..i + 1][..i] == answers[..i];
    }
    assert answers[..|answers|] == answers;
  }

  /** How many answers satisfy `p`. */
  function Count(answers: seq<Answer>, p: Answer -> bool): (n: nat)
    ensures n <= |answers|
    ensures n == 0 <==> forall i :: 0 <= i < |answers| ==> !p(answers[i])
  {
    if answers == [] then 0
    else Count(answers[..|answers| - 1], p) + Bit(p(answers[|answers| - 1]))
  }

  /** Each module's score in closed form: every answer that passes one of the module's
      tests adds that test's increment, once per copy; app_engine has no test. */
  lemma {:induction false} ScoreClosedForm(moduleId: string, answers: seq<Answer>)
    ensures ScoreOf(moduleId, answers) ==
      (if moduleId == "itsm" then
         10 * Count(answers, ServiceBottleneck) + 15 * Count(answers, a => DisruptionsAbove(a, 3))
         + 20 * Count(answers, SlowIncidentResponse)
       else if moduleId == "itom" then
         10 * Count(answers, a => DisruptionsAbove(a, 2)) + 15 * Count(answers, a => VisibilityBelow(a, 3))
       else if moduleId == "itbm" then 20 * Count(answers, a => VisibilityBelow(a, 4))
       else if moduleId == "hrsd" then 25 * Count(answers, a => AutomationWanted(a, "hr"))
       else if moduleId == "csm" then 25 * Count(answers, a => AutomationWanted(a, "customer_service"))
       else 0)
  {
    if answers != [] {
      ScoreClosedForm(moduleId, answers[..|answers| - 1]);
      IncrementByModule(moduleId, answers[|answers| - 1]);
    }
  }

  /** With one answer per question, a test tied to one question passes at most once. */
  lemma {:induction false} CountAtMostOne(answers: seq<Answer>, p: Answer -> bool, id: string)
    requires UniqueIds(answers)
    requires forall a :: p(a) ==> a.questionId == id
    ensures Count(answers, p) <= 1
  {
    if answers != [] {
      var init := answers[..|answers| - 1];
      var last := answers[|answers| - 1];
      assert UniqueIds(init);
      CountAtMostOne(init, p, id);
      if p(last) {
        forall i | 0 <= i < |init| ensures !p(init[i]) {
          assert init[i] == answers[i];
        }
      }
    }
  }

  /** With one answer per question (the session invariant), each score is bounded by the sum
      of its module's increments, and unknown modules score 0. */
  lemma ScoreBounds(moduleId: string, answers: seq<Answer>)
    requires UniqueIds(answers)
    ensures ScoreOf(moduleId, answers) <=
      (if moduleId == "itsm" then 45 else if moduleId == "itom" then 25 else if moduleId == "itbm" then 20
       else if moduleId == "hrsd" || moduleId == "csm" then 25 else 0)
  {
    ScoreClosedForm(moduleId, answers);
    CountAtMostOne(answers, ServiceBottleneck, "bottlenecks");
    CountAtMostOne(answers, a => DisruptionsAbove(a, 3), "service_disruptions");
    CountAtMostOne(answers, SlowIncidentResponse, "incident_response");
    CountAtMostOne(answers, a => DisruptionsAbove(a, 2), "service_disruptions");
    CountAtMostOne(answers, a => VisibilityBelow(a, 3), "leadership_visibility");
    CountAtMostOne(answers, a => VisibilityBelow(a, 4), "leadership_visibility");
    CountAtMostOne(answers, a => AutomationWanted(a, "hr"), "automation_priority");
    CountAtMostOne(answers, a => AutomationWanted(a, "customer_service"), "automation_priority");
  }

  /** Answers are scored independently: the score of a concatenation is the sum of the scores,
      so a duplicated answer counts once per copy. */
  lemma {:induction false} ScoreAppend(moduleId: string, first: seq<Answer>, second: seq<Answer>)
    ensures ScoreOf(moduleId, first + second) == ScoreOf(moduleId, first) + ScoreOf(moduleId, second)
  {
    if second == [] {
      assert first + second == first;
    } else {
      var init := second[..|second| - 1];
      ScoreAppend(moduleId, first, init);
      assert (first + second)[..|first + second| - 1] == first + init;
      assert (first + second)[|first + second| - 1] == second[|second| - 1];
    }
  }

  /** An answer to a question no rule reads, or whose value has a type its rules do not test. */
  predicate Unscored(a: Answer) {
    var q := a.questionId;
    var v := a.value;
    (q != "bottlenecks" && q != "service_disruptions" && q != "incident_response"
      && q != "leadership_visibility" && q != "automation_priority")
    || ((q == "bottlenecks" || q == "automation_priority") && !v.List?)
    || ((q == "service_disruptions" || q == "leadership_visibility") && !v.Number?)
    || (q == "incident_response" && !v.Text?)
  }

  /** Such an answer adds nothing to any module's score. */
  lemma UnscoredAddsNothing(moduleId: string, answers: seq<Answer>, a: Answer)
    requires Unscored(a)
    ensures ScoreOf(moduleId, answers + [a]) == ScoreOf(moduleId, answers)
  {
    IncrementByModule(moduleId, a);
    assert (answers + [a])[..|answers|] == answers;
  }

  // Ranking: the scored catalog, sorted, numbered.

  /** `modules.map(...)`: each catalog module with its score, in catalog order. */
  function Scored(answers: seq<Answer>): seq<ScoredModule> {
    seq(|Modules|, k requires 0 <= k < |Modules| => ScoredModule(Modules[k], ScoreOf(Modules[k].id, answers)))
  }

  /** `.map((module, index) => ({...module, priority: index + 1}))`. */
  function WithPriorities(s: seq<ScoredModule>): seq<RankedModule> {
    seq(|s|, i requires 0 <= i < |s| => RankedModule(s[i].entry, s[i].score, i + 1))
  }

  /** The ranked module without its priority. */
  function Unranked(r: seq<RankedModule>): seq<ScoredModule> {
    seq(|r|, i requires 0 <= i < |r| => ScoredModule(r[i].entry, r[i].score))
  }

  /** `calculateRecommendations(answers)`. */
  function Recommendations(answers: seq<Answer>): seq<RankedModule> {
    WithPriorities(SortDesc(Scored(answers)))
  }

  /** The source's procedure: score every module with the loop, sort the scored array in
      place, then number the result. */
  method CalculateRecommendations(answers: seq<Answer>) returns (ranked: seq<RankedModule>)
    ensures ranked == Recommendations(answers)
  {
    var moduleScores := new ScoredModule[|Modules|](k => ScoredModule(Modules[0], 0));
    for k := 0 to |Modules|
      invariant forall t :: 0 <= t < k ==> moduleScores[t] == Scored(answers)[t]
    {
      var score := ComputeScore(Modules[k], answers);
      moduleScores[k] := ScoredModule(Modules[k], score);
    }
    assert moduleScores[..] == Scored(answers);
    SortInPlace(moduleScores);
    ranked := WithPriorities(moduleScores[..]);
  }

  /** Catalog position as the tie-break key. */
  function CatalogKey(x: ScoredModule): int {
    CatalogIndex(x.entry)
  }

  lemma ScoredInCatalogOrder(answers: seq<Answer>)
    ensures StrictlyIncreasing(Scored(answers), CatalogKey)
  {
    var s := Scored(answers);
    forall i, j | 0 <= i < j < |s| ensures CatalogKey(s[i]) < CatalogKey(s[j]) {
      CatalogIndexOfEntry(i);
      CatalogIndexOfEntry(j);
    }
  }

  /** The result is the scored catalog rearranged: one entry per catalog module, each with all
      its non-score fields copied from the catalog and with its own score. */
  lemma RecommendationsPermuteCatalog(answers: seq<Answer>)
    ensures |Recommendations(answers)| == |Modules|
    ensures multiset(Unranked(Recommendations(answers))) == multiset(Scored(answers))
    ensures forall i :: 0 <= i < |Recommendations(answers)| ==>
      Recommendations(answers)[i].entry in Modules
      && Recommendations(answers)[i].score == ScoreOf(Recommendations(answers)[i].entry.id, answers)
  {
    var sorted := SortDesc(Scored(answers));
    var r := Recommendations(answers);
    SortDescPermutation(Scored(answers));
    assert Unranked(r) == sorted;
    forall i | 0 <= i < |r|
      ensures r[i].entry in Modules && r[i].score == ScoreOf(r[i].entry.id, answers)
    {
      assert sorted[i] in multiset(Scored(answers));
      var k :| 0 <= k < |Modules| && Scored(answers)[k] == sorted[i];
    }
  }

  /** Priorities are the positions counted from 1; scores never increase along the list; equal
      scores keep catalog order. */
  lemma RecommendationsRanked(answers: seq<Answer>)
    ensures forall i :: 0 <= i < |Recommendations(answers)| ==> Recommendations(answers)[i].priority == i + 1
    ensures forall i, j :: 0 <= i < j < |Recommendations(answers)| ==>
      Recommendations(answers)[i].score >= Recommendations(answers)[j].score
    ensures forall i, j ::
      (0 <= i < j < |Recommendations(answers)|
       && Recommendations(answers)[i].score == Recommendations(answers)[j].score) ==>
      CatalogIndex(Recommendations(answers)[i].entry) < CatalogIndex(Recommendations(answers)[j].entry)
  {
    var sorted := SortDesc(Scored(answers));
    SortDescDescending(Scored(answers));
    ScoredInCatalogOrder(answers);
    SortDescStable(Scored(answers), CatalogKey);
    var r := Recommendations(answers);
    forall i, j | 0 <= i < j < |r| ensures r[i].score >= r[j].score {
      assert r[i].score == sorted[i].score && r[j].score == sorted[j].score;
    }
    forall i, j | 0 <= i < j < |r| && r[i].score == r[j].score
      ensures CatalogIndex(r[i].entry) < CatalogIndex(r[j].entry)
    {
      assert CatalogKey(sorted[i]) < CatalogKey(sorted[j]);
    }
  }

  /** app_engine has no rule, so it scores 0, and it is last in the catalog, so it always
      ranks last, with priority 6. */
  lemma AppEngineRanksLast(answers: seq<Answer>)
    ensures |Recommendations(answers)| == 6
    ensures Recommendations(answers)[5] == RankedModule(Modules[5], 0, 6)
  {
    var r := Recommendations(answers);
    var s := Scored(answers);
    RecommendationsPermuteCatalog(answers);
    RecommendationsRanked(answers);
    ScoreClosedForm("app_engine", answers);
    assert s[5] == ScoredModule(Modules[5], 0);
    assert s[5] in multiset(Unranked(r));
    var p :| 0 <= p < |r| && Unranked(r)[p] == s[5];
    CatalogIndexOfEntry(5);
  }

  /** With no answers every score is 0 and the ranking is the catalog order. */
  lemma NoAnswersCatalogOrder()
    ensures |Recommendations([])| == |Modules|
    ensures forall k :: 0 <= k < |Modules| ==> Recommendations([])[k] == RankedModule(Modules[k], 0, k + 1)
  {
    SortDescOfDescending(Scored([]));
  }

  /** A single slow `incident_response` answer lifts itsm to the top with 20 points; the other
      modules follow in catalog order with 0. */
  lemma SlowIncidentResponseRanking()
    ensures var r := Recommendations([Answer("incident_response", Text("week_plus"))]);
      |r| == 6 && r[0] == RankedModule(Modules[0], 20, 1)
      && forall k :: 1 <= k < 6 ==> r[k] == RankedModule(Modules[k], 0, k + 1)
  {
    var a := Answer("incident_response", Text("week_plus"));
    var s := Scored([a]);
    forall k | 0 <= k < |Modules| ensures s[k].score == if k == 0 then 20 else 0 {
      IncrementByModule(Modules[k].id, a);
    }
    SortDescOfDescending(s);
  }
}
