/** The assessment session shared by every step of the wizard
    (src/context/AssessmentContext.tsx): the recorded answers and the ranked modules. */
module AssessmentContext {
  import opened Wrappers
  import opened Answers
  import opened RecommendationEngine

  /** The provider's two state cells. */
  class AssessmentState {
    var answers: seq<Answer>
    var recommendedModules: seq<RankedModule>

    /** One answer per question: `addAnswer` is the only way answers enter the session. */
    ghost predicate Valid()
      reads this
    {
      UniqueIds(answers)
    }

    /** Both cells start empty. */
    constructor ()
      ensures answers == [] && recommendedModules == []
      ensures Valid()
    {
      answers := [];
      recommendedModules := [];
    }

    /** `addAnswer`: drop any earlier answer to the same question and append the new one. */
    method AddAnswer(answer: Answer)
      requires Valid()
      modifies this
      ensures answers == Upsert(old(answers), answer)
      ensures recommendedModules == old(recommendedModules)
      ensures Valid()
      ensures FindValue(answers, answer.questionId) == Some(answer.value)
      ensures answers[|answers| - 1] == answer
      ensures forall id :: id != answer.questionId ==> FindValue(answers, id) == FindValue(old(answers), id)
    {
      UpsertKeepsUnique(answers, answer);
      UpsertStoresAnswer(answers, answer);
      forall id | id != answer.questionId
        ensures FindValue(Upsert(answers, answer), id) == FindValue(answers, id)
      {
        UpsertKeepsOthers(answers, answer, id);
      }
      answers := Without(answers, answer.questionId) + [answer];
    }

    /** `setRecommendedModules`: the list is replaced wholesale; the answers stay. */
    method SetRecommendedModules(modules: seq<RankedModule>)
      modifies this
      ensures recommendedModules == modules
      ensures answers == old(answers)
    {
      recommendedModules := modules;
    }
  }

  const OutsideProvider := "useAssessment must be used within an AssessmentProvider"

  /** `useAssessment`: the session of the enclosing provider, or the error thrown when there
      is none. */
  function UseAssessment(context: Option<AssessmentState>): (r: Result<AssessmentState, string>)
    ensures r.Success? <==> context.Some?
    ensures r.Success? ==> r.value == context.value
    ensures r.Failure? ==> r.error == OutsideProvider
  {
    match context
    case None => Failure(OutsideProvider)
    case Some(state) => Success(state)
  }
}
