/** The wizard shell (src/App.tsx): four steps, Welcome, Contact Info, Assessment and
    Results, with one session shared by all of them. */
module App {
  import opened AssessmentContext

  const StepNames: seq<string> := ["Welcome", "Contact Info", "Assessment", "Results"]

  class Wizard {
    var currentStep: nat
    /** The provider wraps every step, so the session outlives step changes. */
    const session: AssessmentState

    predicate Valid()
      reads this
    {
      currentStep < |StepNames|
    }

    constructor ()
      ensures currentStep == 0 && Valid()
      ensures fresh(session) && session.answers == [] && session.recommendedModules == []
    {
      currentStep := 0;
      session := new AssessmentState();
    }

    /** The name of the step on screen: `steps[currentStep]` is always defined. */
    function StepName(): (name: string)
      requires Valid()
      reads this
      ensures name in StepNames
    {
      StepNames[currentStep]
    }

    /** Welcome's `onContinue`. */
    method ContinueFromWelcome()
      modifies this
      ensures currentStep == 1 && Valid()
      ensures unchanged(session)
    {
      currentStep := 1;
    }

    /** ContactForm's `onContinue`. */
    method ContinueFromContact()
      modifies this
      ensures currentStep == 2 && Valid()
      ensures unchanged(session)
    {
      currentStep := 2;
    }

    /** QuestionnaireContainer's `onContinue`. */
    method ContinueFromAssessment()
      modifies this
      ensures currentStep == 3 && Valid()
      ensures unchanged(session)
    {
      currentStep := 3;
    }

    /** ResultsContainer's `onRestart`: back to Welcome, with the answers and the ranking
        left as they were. */
    method Restart()
      modifies this
      ensures currentStep == 0 && Valid()
      ensures unchanged(session)
    {
      currentStep := 0;
    }
  }
}
