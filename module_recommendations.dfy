/** The recommendation cards (src/components/Results/ModuleRecommendations.tsx): each of the
    top three modules is shown with advice tailored to the answers and with links to its
    resources. Advice texts and URLs are abstracted to named values. */
module ModuleRecommendations {
  import opened Answers
  import opened Catalog
  import opened RecommendationEngine
  import opened Results

  // Advice: `getTailoredAdvice`.

  /** Each module has a focused advice, given when the answers show the matching need, and a
      general one; an unknown module gets the phased-approach advice. */
  datatype Advice =
    | IncidentManagementFirst | ServiceCatalogFirst
    | EventManagementAndMapping | DiscoveryAndCmdb
    | PerformanceDashboards | PortfolioManagement
    | EmployeeServiceCenter | EmployeeDocuments
    | CustomerServiceWithFieldService | CustomerPortal
    | AppEngineIntegration | CustomApplications
    | PhasedApproach

  /** The module an advice is about; "" for the phased-approach advice. */
  function Topic(advice: Advice): string {
    match advice
    case IncidentManagementFirst | ServiceCatalogFirst => "itsm"
    case EventManagementAndMapping | DiscoveryAndCmdb => "itom"
    case PerformanceDashboards | PortfolioManagement => "itbm"
    case EmployeeServiceCenter | EmployeeDocuments => "hrsd"
    case CustomerServiceWithFieldService | CustomerPortal => "csm"
    case AppEngineIntegration | CustomApplications => "app_engine"
    case PhasedApproach => ""
  }

  /** The advice that answers a need found in the answers. */
  predicate Focused(advice: Advice) {
    advice in {IncidentManagementFirst, EventManagementAndMapping, PerformanceDashboards,
               EmployeeServiceCenter, CustomerServiceWithFieldService, AppEngineIntegration}
  }

  /** `getTailoredAdvice(moduleId)`: a catalog module gets advice about itself, any other id
      the phased-approach advice. */
  function TailoredAdvice(moduleId: string, answers: seq<Answer>): (advice: Advice)
    ensures moduleId in ModuleIds ==> Topic(advice) == moduleId
    ensures moduleId !in ModuleIds ==> advice == PhasedApproach
  {
    if moduleId == "itsm" then
      if exists a | a in answers :: SlowIncidentResponse(a) then IncidentManagementFirst else ServiceCatalogFirst
    else if moduleId == "itom" then
      if exists a | a in answers :: DisruptionsAbove(a, 3) then EventManagementAndMapping else DiscoveryAndCmdb
    else if moduleId == "itbm" then
      if exists a | a in answers :: VisibilityBelow(a, 3) then PerformanceDashboards else PortfolioManagement
    else if moduleId == "hrsd" then
      if exists a | a in answers :: AutomationWanted(a, "hr") then EmployeeServiceCenter else EmployeeDocuments
    else if moduleId == "csm" then
      if exists a | a in answers :: AutomationWanted(a, "customer_service") then CustomerServiceWithFieldService
      else CustomerPortal
    else if moduleId == "app_engine" then
      if exists a | a in answers :: IntegrationGap(a) then AppEngineIntegration else CustomApplications
    else PhasedApproach
  }

  /** The ids of the catalog modules, in catalog order (ModuleIdsOfCatalog). */
  const ModuleIds: seq<string> := ["itsm", "itom", "itbm", "hrsd", "csm", "app_engine"]

  lemma ModuleIdsOfCatalog()
    ensures |ModuleIds| == |Modules|
    ensures forall k :: 0 <= k < |Modules| ==> Modules[k].id == ModuleIds[k]
  {
    CatalogShape();
  }

  /** The focused advice follows the scoring table: itsm, hrsd and csm use their own rows,
      the itom advice uses the itsm disruption row (above 3) and the itbm advice the itom
      visibility row (below 3). */
  lemma AdviceFollowsRules(answers: seq<Answer>)
    ensures Focused(TailoredAdvice("itsm", answers)) <==> exists a :: a in answers && Fires(Rules[2], "itsm", a)
    ensures Focused(TailoredAdvice("itom", answers)) <==> exists a :: a in answers && Fires(Rules[1], "itsm", a)
    ensures Focused(TailoredAdvice("itbm", answers)) <==> exists a :: a in answers && Fires(Rules[4], "itom", a)
    ensures Focused(TailoredAdvice("hrsd", answers)) <==> exists a :: a in answers && Fires(Rules[6], "hrsd", a)
    ensures Focused(TailoredAdvice("csm", answers)) <==> exists a :: a in answers && Fires(Rules[7], "csm", a)
    ensures Focused(TailoredAdvice("app_engine", answers)) <==> exists a :: a in answers && IntegrationGap(a)
  {
    forall a | a in answers
      ensures Fires(Rules[2], "itsm", a) == SlowIncidentResponse(a)
      ensures Fires(Rules[1], "itsm", a) == DisruptionsAbove(a, 3)
      ensures Fires(Rules[4], "itom", a) == VisibilityBelow(a, 3)
      ensures Fires(Rules[6], "hrsd", a) == AutomationWanted(a, "hr")
      ensures Fires(Rules[7], "csm", a) == AutomationWanted(a, "customer_service")
    {
      RuleRows("itsm", a);
      RuleRows("itom", a);
      RuleRows("hrsd", a);
      RuleRows("csm", a);
    }
  }

  /** Some answer passes `p`, so it is counted. */
  lemma CountedWhenPresent(answers: seq<Answer>, p: Answer -> bool, a: Answer)
    requires a in answers && p(a)
    ensures Count(answers, p) >= 1
  {
    var i :| 0 <= i < |answers| && answers[i] == a;
  }

  // A module with scoring rules gets its focused advice only when it has scored for that
  // need (app_engine, which has no rules, gets its focused advice with a score of 0).

  lemma ItsmAdviceScored(answers: seq<Answer>)
    ensures Focused(TailoredAdvice("itsm", answers)) ==> ScoreOf("itsm", answers) >= 20
  {
    ScoreClosedForm("itsm", answers);
    if a :| a in answers && SlowIncidentResponse(a) {
      CountedWhenPresent(answers, SlowIncidentResponse, a);
    }
  }

  lemma ItomAdviceScored(answers: seq<Answer>)
    ensures Focused(TailoredAdvice("itom", answers)) ==> ScoreOf("itom", answers) >= 10 && ScoreOf("itsm", answers) >= 15
  {
    if a :| a in answers && DisruptionsAbove(a, 3) {
      ScoreClosedForm("itsm", answers);
      ScoreClosedForm("itom", answers);
      CountedWhenPresent(answers, a => DisruptionsAbove(a, 3), a);
      CountedWhenPresent(answers, a => DisruptionsAbove(a, 2), a);
    }
  }

  lemma ItbmAdviceScored(answers: seq<Answer>)
    ensures Focused(TailoredAdvice("itbm", answers)) ==> ScoreOf("itbm", answers) >= 20 && ScoreOf("itom", answers) >= 15
  {
    if a :| a in answers && VisibilityBelow(a, 3) {
      ScoreClosedForm("itom", answers);
      ScoreClosedForm("itbm", answers);
      CountedWhenPresent(answers, a => VisibilityBelow(a, 3), a);
      CountedWhenPresent(answers, a => VisibilityBelow(a, 4), a);
    }
  }

  /** hrsd and csm follow one pattern: their focused advice asks for automation of their own
      area, which scores 25 for them. */
  lemma AutomationAdviceScored(answers: seq<Answer>, moduleId: string, area: string)
    requires (moduleId, area) in {("hrsd", "hr"), ("csm", "customer_service")}
    ensures Focused(TailoredAdvice(moduleId, answers)) ==> ScoreOf(moduleId, answers) >= 25
  {
    if a :| a in answers && AutomationWanted(a, area) {
      ScoreClosedForm(moduleId, answers);
      CountedWhenPresent(answers, a => AutomationWanted(a, area), a);
    }
  }

  // Resources: `moduleResources[module.id] || {}`.

  /** The kinds of resource link a card can show. */
  datatype Link =
    | ProductPage | Documentation | SuccessStories | CommunityForum
    | ImplementationGuide | BestPractices | ValueCalculator | Training

  /** Which links each module's resource entry has. */
  const ResourceTable: map<string, set<Link>> := map[
    "itsm" := {ProductPage, Documentation, SuccessStories, CommunityForum, ImplementationGuide},
    "itom" := {ProductPage, Documentation, SuccessStories, CommunityForum, BestPractices},
    "itbm" := {ProductPage, Documentation, SuccessStories, CommunityForum, ValueCalculator},
    "hrsd" := {ProductPage, Documentation, SuccessStories, CommunityForum, BestPractices},
    "csm" := {ProductPage, Documentation, SuccessStories, CommunityForum, BestPractices},
    "app_engine" := {ProductPage, Documentation, SuccessStories, CommunityForum, Training}
  ]

  /** The links shown for a module: its entry, or none for an id without one. */
  function Resources(moduleId: string): (links: set<Link>) {
    if moduleId in ResourceTable then ResourceTable[moduleId] else {}
  }

  /** Every catalog module has a resource entry with its product page, documentation,
      success stories, community forum and one more link; any other id has no links. */
  lemma ResourcesOfModules(moduleId: string)
    ensures moduleId in ModuleIds ==>
      |Resources(moduleId)| == 5 && {ProductPage, Documentation, SuccessStories, CommunityForum} <= Resources(moduleId)
    ensures moduleId !in ModuleIds ==> Resources(moduleId) == {}
  {
  }

  // The cards: `topModules.map(...)`.

  datatype Card = Card(entry: RankedModule, advice: Advice, links: set<Link>)

  /** One card per top module, in rank order. */
  function Cards(modules: seq<RankedModule>, answers: seq<Answer>): (cards: seq<Card>)
    ensures |cards| == |TopModules(modules)|
  {
    var top := TopModules(modules);
    seq(|top|, i requires 0 <= i < |top| =>
      Card(top[i], TailoredAdvice(top[i].entry.id, answers), Resources(top[i].entry.id)))
  }

  /** For an engine ranking there are three cards, ranked 1 to 3, each with advice about its
      own module and with the five links of its resource entry. */
  lemma CardsOfRecommendations(answers: seq<Answer>)
    ensures var cards := Cards(Recommendations(answers), answers);
      |cards| == 3
      && forall i :: 0 <= i < 3 ==>
        cards[i].entry.priority == i + 1
        && Topic(cards[i].advice) == cards[i].entry.entry.id
        && |cards[i].links| == 5
  {
    var ranked := Recommendations(answers);
    TopOfRanking(answers);
    RecommendationsPermuteCatalog(answers);
    var cards := Cards(ranked, answers);
    forall i | 0 <= i < 3
      ensures Topic(cards[i].advice) == cards[i].entry.entry.id && |cards[i].links| == 5
    {
      assert cards[i].entry == ranked[i];
      ResourcesOfModules(ranked[i].entry.id);
    }
  }
}
