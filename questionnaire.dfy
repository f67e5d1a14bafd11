/** The question-by-question walk through the bank
    (src/components/Assessment/QuestionnaireContainer.tsx): an index into the bank stepped by
    Next and Previous, the progress bar, the Next button's enabling test, and the last step,
    which ranks the modules and stores the ranking in the session. */
module Questionnaire {
  import opened Wrappers
  import opened Answers
  import opened Questions
  import opened RecommendationEngine
  import opened AssessmentContext

  /** `Math.round((index + 1) / count * 100)`, in exact arithmetic: rounding half up is
      `floor(x + 1/2)`, and `x + 1/2 = (200 (index + 1) + count) / (2 count)`. */
  function Progress(index: nat, count: nat): int
    requires index < count
  {
    (200 * (index + 1) + count) / (2 * count)
  }

  lemma MulNonNegative(a: int, b: int)
    requires a >= 0 && b >= 0
    ensures a * b >= 0
  {
  }

  /** `x / d == q` when `x` lies in the q-th block of `d`. */
  lemma DivExact(x: int, d: int, q: int)
    requires d > 0 && q * d <= x < q * d + d
    ensures x / d == q
  {
    var k := x / d;
    assert x == k * d + x % d && 0 <= x % d < d;
    if k > q {
      MulNonNegative(k - q - 1, d);
    } else if k < q {
      MulNonNegative(q - k - 1, d);
    }
  }

  lemma DivMonotone(a: int, b: int, d: int)
    requires 0 <= a <= b && d > 0
    ensures a / d <= b / d
  {
    var ka := a / d;
    var kb := b / d;
    assert a == ka * d + a % d && 0 <= a % d < d;
    assert b == kb * d + b % d && 0 <= b % d < d;
    if ka > kb {
      MulNonNegative(ka - kb - 1, d);
    }
  }

  /** The bar never moves back when the index moves forward. */
  lemma ProgressMonotone(i: nat, j: nat, count: nat)
    requires i <= j < count
    ensures Progress(i, count) <= Progress(j, count)
  {
    DivMonotone(200 * (i + 1) + count, 200 * (j + 1) + count, 2 * count);
  }

  /** With fewer than 200 questions the bar reads 100 exactly on the last question; before
      it, rounding cannot reach 100. */
  lemma ProgressFull(i: nat, count: nat)
    requires i < count < 200
    ensures Progress(i, count) == 100 <==> i == count - 1
  {
    var n := 200 * (i + 1) + count;
    if i == count - 1 {
      assert n == 100 * (2 * count) + count;
      DivExact(n, 2 * count, 100);
    } else {
      assert n <= 99 * (2 * count) + (2 * count - 1) by {
        assert 200 * (i + 1) <= 200 * (count - 1);
      }
      DivMonotone(n, 99 * (2 * count) + (2 * count - 1), 2 * count);
      DivExact(99 * (2 * count) + (2 * count - 1), 2 * count, 99);
    }
  }

  /** The eight readings of the bar. */
  lemma BankProgress()
    ensures |Bank| == 8
    ensures Progress(0, 8) == 13 && Progress(1, 8) == 25 && Progress(2, 8) == 38 && Progress(3, 8) == 50
    ensures Progress(4, 8) == 63 && Progress(5, 8) == 75 && Progress(6, 8) == 88 && Progress(7, 8) == 100
  {
  }

  /** Storing any value, an emptied selection or an empty text included, makes the question
      count as answered. */
  lemma AnsweredAfterAnyValue(answers: seq<Answer>, id: string, value: Value)
    ensures HasAnswer(Upsert(answers, Answer(id, value)), id)
  {
    UpsertStoresAnswer(answers, Answer(id, value));
  }

  class QuestionnaireContainer {
    var currentQuestionIndex: nat
    const session: AssessmentState

    /** The index always points into the bank. */
    ghost predicate Valid()
      reads this, session
    {
      currentQuestionIndex < |Bank| && session.Valid()
    }

    constructor (session: AssessmentState)
      requires session.Valid()
      ensures currentQuestionIndex == 0 && this.session == session
      ensures Valid()
    {
      currentQuestionIndex := 0;
      this.session := session;
    }

    function CurrentQuestion(): (q: Question)
      requires currentQuestionIndex < |Bank|
      reads this
      ensures q in Bank
    {
      Bank[currentQuestionIndex]
    }

    /** `isCurrentQuestionAnswered`: some stored answer carries the current question's id,
        whatever its value. */
    function IsCurrentQuestionAnswered(): (r: bool)
      requires currentQuestionIndex < |Bank|
      reads this, session
      ensures r <==> exists i :: 0 <= i < |session.answers| && session.answers[i].questionId == CurrentQuestion().id
    {
      HasAnswer(session.answers, CurrentQuestion().id)
    }

    /** The value shown for the current question: that of the first stored answer with its id. */
    function CurrentAnswer(): (r: Option<Value>)
      requires currentQuestionIndex < |Bank|
      reads this, session
      ensures r.Some? <==> IsCurrentQuestionAnswered()
      ensures r.Some? ==> exists i :: (0 <= i < |session.answers|
        && session.answers[i] == Answer(CurrentQuestion().id, r.value)
        && forall j :: 0 <= j < i ==> session.answers[j].questionId != CurrentQuestion().id)
    {
      FindValue(session.answers, CurrentQuestion().id)
    }

    function CurrentProgress(): int
      requires currentQuestionIndex < |Bank|
      reads this
    {
      Progress(currentQuestionIndex, |Bank|)
    }

    /** `handleAnswer`: records the answer in the session. */
    method HandleAnswer(questionId: string, value: Value)
      requires Valid()
      modifies session
      ensures Valid()
      ensures session.answers == Upsert(old(session.answers), Answer(questionId, value))
      ensures session.recommendedModules == old(session.recommendedModules)
    {
      session.AddAnswer(Answer(questionId, value));
    }

    /** `handleNext`: moves to the next question; on the last one, ranks the modules from the
        current answers, stores the ranking, and reports that the wizard continues. */
    method HandleNext() returns (continued: bool)
      requires Valid()
      modifies this, session
      ensures Valid()
      ensures continued <==> old(currentQuestionIndex) == |Bank| - 1
      ensures !continued ==> currentQuestionIndex == old(currentQuestionIndex) + 1 && unchanged(session)
      ensures continued ==> (currentQuestionIndex == old(currentQuestionIndex)
        && session.recommendedModules == Recommendations(old(session.answers))
        && session.answers == old(session.answers))
    {
      if currentQuestionIndex < |Bank| - 1 {
        currentQuestionIndex := currentQuestionIndex + 1;
        continued := false;
      } else {
        var recommendations := CalculateRecommendations(session.answers);
        session.SetRecommendedModules(recommendations);
        continued := true;
      }
    }

    /** `handlePrevious`: moves back unless on the first question. */
    method HandlePrevious()
      requires Valid()
      modifies this
      ensures Valid()
      ensures currentQuestionIndex == if old(currentQuestionIndex) > 0 then old(currentQuestionIndex) - 1 else 0
    {
      if currentQuestionIndex > 0 {
        currentQuestionIndex := currentQuestionIndex - 1;
      }
    }
  }
}
