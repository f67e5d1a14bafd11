/** What every results view starts from: `modules.slice(0, 3)`, the top of the ranking
    (src/components/Results/ModuleRecommendations.tsx, ExecutiveSummary.tsx,
    ImplementationRoadmap.tsx and ROICalculator.tsx). */
module Results {
  import opened Answers
  import opened Catalog
  import opened RecommendationEngine

  /** `ranked.slice(0, 3)`: the first three modules, or all of them when there are fewer. */
  function TopModules(ranked: seq<RankedModule>): (top: seq<RankedModule>)
    ensures |top| == if |ranked| < 3 then |ranked| else 3
    ensures forall i :: 0 <= i < |top| ==> top[i] == ranked[i]
  {
    if |ranked| < 3 then ranked else ranked[..3]
  }

  /** The top of a ranking always has three modules, with priorities 1, 2 and 3, and the
      highest scores. */
  lemma TopOfRanking(answers: seq<Answer>)
    ensures |TopModules(Recommendations(answers))| == 3
    ensures forall i :: 0 <= i < 3 ==> TopModules(Recommendations(answers))[i].priority == i + 1
    ensures forall i, j :: 0 <= i < 3 <= j < |Recommendations(answers)| ==>
      TopModules(Recommendations(answers))[i].score >= Recommendations(answers)[j].score
  {
    RecommendationsPermuteCatalog(answers);
    RecommendationsRanked(answers);
  }
}
