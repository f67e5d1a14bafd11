# Decision logic of the NOW assessment wizard

The wizard walks a visitor through four steps: Welcome, Contact Info, Assessment and Results.
On the Assessment step the visitor answers eight questions. From those answers a small
recommendation engine scores six ServiceNow modules and ranks them. The Results step then
derives four views from the top three modules and the answers:

- tailored advice and resource links per module;
- a staggered implementation timeline with tips;
- an ROI panel with an implementation cost and insights;
- an executive summary with key benefits and strategic insights.

This project models that decision layer in Dafny and proves what it promises:

- the catalog (`Catalog`) and the question bank (`Questions`);
- the session store and its one-answer-per-question invariant (`Answers`, `AssessmentContext`);
- the engine's scoring loop and its stable in-place sort (`RecommendationEngine`, `Ranking`);
- the step machine (`App`), the question walk (`Questionnaire`) and the multi-select toggle
  (`MultipleChoice`);
- the contact-form validator (`ContactForm`);
- the four result views (`Results`, `ModuleRecommendations`, `Roadmap`, `RoiCalculator`,
  `ExecutiveSummary`);
- the ECMAScript string helpers they rely on: `trim`, `\s`, `parseInt` and the decimal
  rendering of numbers (`Text`).

State that the source updates in place is modelled as classes:

- the session cells (`AssessmentState`);
- the wizard step (`Wizard`);
- the question index (`QuestionnaireContainer`);
- the contact form (`ContactFormState`);
- the ROI inputs (`RoiCalculatorState`).

The per-module score is a loop proved against a left fold (`ScoreOf`). The ranking is an
in-place insertion sort on an array, proved equal to a functional stable sort (`SortDesc`).
That sort is proved to be a permutation, descending, and stable with respect to catalog order.

Each selector is a method that appends to a local list, as the source does. The selectors are
the implementation tips, the ROI insights and the strategic insights. Each is specified by
which items it yields, in which order, and when the default item appears.

Texts and URLs are abstracted to named values, such as advice, tips, insights and resource links.

## Model

| member | source | states |
|---|---|---|
| Answers.AnyAnswer | src/components/Assessment/QuestionnaireContainer.tsx:59 | `answers.some(p)` holds iff some stored answer passes `p` |
| Answers.FindValue | src/components/Assessment/QuestionnaireContainer.tsx:46 | `find(...)?.value`: None iff no answer has the id; otherwise the value of the first answer with that id |
| Answers.Without | src/context/AssessmentContext.tsx:30 | the filter keeps exactly the answers with another id, and never grows |
| Answers.WithoutLength | src/context/AssessmentContext.tsx:30 | the filter removes exactly the answers carrying the id |
| Answers.CountUnique | src/context/AssessmentContext.tsx:27-33 | with one answer per question, an id is carried by one answer if answered, else none |
| Answers.WithoutKeepsUnique | src/context/AssessmentContext.tsx:30 | filtering keeps one-answer-per-question |
| Answers.WithoutIdempotent | src/context/AssessmentContext.tsx:30 | filtering twice by the same id is filtering once |
| Answers.WithoutAppend | src/context/AssessmentContext.tsx:30 | the filter distributes over concatenation |
| Answers.FindValueWithout | src/context/AssessmentContext.tsx:30 | removing one id does not change the lookup of any other id |
| Answers.FindValueAppend | src/context/AssessmentContext.tsx:32 | appending an answer changes a lookup only when the id was not answered before |
| Answers.UpsertStoresAnswer | src/context/AssessmentContext.tsx:27-33 | after the upsert the new answer is last, is the only one with its id, and is what a lookup returns |
| Answers.CountAppendOne | src/context/AssessmentContext.tsx:32 | appending an answer adds one answer with its id |
| Answers.UpsertKeepsOthers | src/context/AssessmentContext.tsx:30-32 | answers to other questions keep their values, and their relative order |
| Answers.UpsertKeepsUnique | src/context/AssessmentContext.tsx:27-33 | the upsert preserves one-answer-per-question; the store grows by one exactly for a new question |
| Answers.UpsertTwice | src/context/AssessmentContext.tsx:27-33 | answering a question twice equals answering it once with the second value |
| AssessmentContext.AssessmentState.constructor | src/context/AssessmentContext.tsx:25-26 | both cells start empty, so the one-answer-per-question invariant holds |
| AssessmentContext.AssessmentState.AddAnswer | src/context/AssessmentContext.tsx:27-34 | `addAnswer` is the upsert; it keeps the invariant, stores the value last, and leaves other answers and the ranking alone |
| AssessmentContext.AssessmentState.SetRecommendedModules | src/context/AssessmentContext.tsx:26 | the ranking is replaced wholesale; the answers are unchanged |
| AssessmentContext.UseAssessment | src/context/AssessmentContext.tsx:44-50 | the session of the provider, or the "must be used within an AssessmentProvider" error outside one |
| App.Wizard.constructor | src/App.tsx:11 | the wizard starts at step 0 with an empty session |
| App.Wizard.StepName | src/App.tsx:12-34 | `steps[currentStep]` is always one of the four steps |
| App.Wizard.ContinueFromWelcome | src/App.tsx:15 | Welcome continues to step 1; the session is unchanged |
| App.Wizard.ContinueFromContact | src/App.tsx:19 | Contact continues to step 2; the session is unchanged |
| App.Wizard.ContinueFromAssessment | src/App.tsx:23 | Assessment continues to step 3; the session is unchanged |
| App.Wizard.Restart | src/App.tsx:27-29 | Restart returns to step 0, and the provider keeps the answers and the ranking |
| Catalog.IndexOfId | src/data/modules.ts:1-43 | the position of the first module with an id, or the length when there is none |
| Catalog.CatalogShape | src/data/modules.ts:1-43 | six modules, in the order itsm, itom, itbm, hrsd, csm, app_engine |
| Catalog.CatalogIdsDistinct | src/data/modules.ts:2-37 | module ids are pairwise distinct |
| Catalog.CatalogIndexOfEntry | src/data/modules.ts:1-43 | each module's catalog position is where it stands, so catalog order is a strict order |
| Catalog.CatalogBenefits | src/data/modules.ts:5-40 | every module lists exactly four benefits |
| Questions.BankShape | src/data/questions.ts:1-118 | eight questions with pairwise distinct ids |
| Questions.ScaleBounds | src/data/questions.ts:33-117 | the scale questions are service_disruptions, leadership_visibility and compliance_visibility; each runs from 1 to 5 |
| Questions.MultiSelectQuestions | src/data/questions.ts:8-90 | only bottlenecks and automation_priority are multi-select |
| Questions.OptionsDistinct | src/data/questions.ts:13-109 | option values are distinct within each multiple-choice question |
| Questions.RuleLiteralsOffered | src/data/questions.ts:14-104 | every literal a scoring rule, a tailored advice or a strategic insight tests for (including cross_dept_communication and approval_workflows) is an option the matching question offers |
| RecommendationEngine.RuleRows | src/utils/recommendationEngine.ts:14-51 | each row of the declarative rule table fires exactly when the source's branch for that module does |
| RecommendationEngine.IncrementByModule | src/utils/recommendationEngine.ts:14-51 | per module, what one answer adds: itsm 10/15/20, itom 10/15, itbm 20, hrsd 25, csm 25, app_engine 0 |
| RecommendationEngine.AnswerGain | src/utils/recommendationEngine.ts:13-51 | the source's branches for one answer, transcribed, add exactly the rule table's increment |
| RecommendationEngine.ComputeScore | src/utils/recommendationEngine.ts:10-52 | the `let score` / `forEach` loop computes the left-fold score |
| RecommendationEngine.Count | src/utils/recommendationEngine.ts:12-52 | the number of answers passing a test; zero iff none passes |
| RecommendationEngine.ScoreClosedForm | src/utils/recommendationEngine.ts:12-52 | each score in closed form: increment times the number of answers passing each test; app_engine 0 |
| RecommendationEngine.CountAtMostOne | src/utils/recommendationEngine.ts:12-52 | with one answer per question, a test tied to one question passes at most once |
| RecommendationEngine.ScoreBounds | src/utils/recommendationEngine.ts:12-52 | with one answer per question, the scores are at most itsm 45, itom 25, itbm 20, hrsd 25, csm 25, others 0 |
| RecommendationEngine.ScoreAppend | src/utils/recommendationEngine.ts:12-52 | answers are scored independently: the score of a concatenation is the sum, so duplicates count per copy |
| RecommendationEngine.UnscoredAddsNothing | src/utils/recommendationEngine.ts:12-52 | an answer with an unknown id or a mismatched value type adds nothing to any score |
| RecommendationEngine.CalculateRecommendations | src/utils/recommendationEngine.ts:6-63 | the procedure: a score loop per module, an in-place sort, then numbering; it equals the functional ranking |
| RecommendationEngine.ScoredInCatalogOrder | src/utils/recommendationEngine.ts:9 | the scored list is in strictly increasing catalog order |
| RecommendationEngine.RecommendationsPermuteCatalog | src/utils/recommendationEngine.ts:9-59 | one entry per catalog module, a permutation of the scored catalog, each with its catalog fields and its own score |
| RecommendationEngine.RecommendationsRanked | src/utils/recommendationEngine.ts:59-62 | priorities are positions + 1; scores do not increase; equal scores keep catalog order |
| RecommendationEngine.AppEngineRanksLast | src/utils/recommendationEngine.ts:13-62 | app_engine always scores 0 and ranks last with priority 6 |
| RecommendationEngine.NoAnswersCatalogOrder | src/utils/recommendationEngine.ts:10-62 | with no answers every score is 0 and the ranking is the catalog order |
| RecommendationEngine.SlowIncidentResponseRanking | src/utils/recommendationEngine.ts:21-62 | a single week_plus incident answer puts itsm first with 20, the rest in catalog order with 0 |
| Ranking.InsertionPoint | src/utils/recommendationEngine.ts:59 | the slot where a stable descending insertion puts a module: after every module scoring at least as much |
| Ranking.InsertPermutation | src/utils/recommendationEngine.ts:59 | insertion adds exactly the inserted module |
| Ranking.InsertDescending | src/utils/recommendationEngine.ts:59 | insertion keeps a list sorted by descending score |
| Ranking.InsertTiesOrdered | src/utils/recommendationEngine.ts:59 | inserting a module whose key exceeds all others keeps ties in key order |
| Ranking.SortDescPermutation | src/utils/recommendationEngine.ts:59 | the sort is a permutation |
| Ranking.SortDescDescending | src/utils/recommendationEngine.ts:59 | the sort yields descending scores |
| Ranking.SortDescStable | src/utils/recommendationEngine.ts:59 | the sort is stable: ties keep their input order |
| Ranking.SortDescOfDescending | src/utils/recommendationEngine.ts:59 | a list already in descending order is left as it is |
| Ranking.InsertInPlace | src/utils/recommendationEngine.ts:59 | shifting one element into the sorted prefix of the array is the functional insertion |
| Ranking.InsertionPointIs | src/utils/recommendationEngine.ts:59 | the insertion point is the slot between higher and lower scores |
| Ranking.SortInPlace | src/utils/recommendationEngine.ts:59 | the in-place sort of the array equals the functional stable sort of its old contents |
| Results.TopModules | src/components/Results/ModuleRecommendations.tsx:24 | `slice(0, 3)`: the first three modules, or all when fewer |
| Results.TopOfRanking | src/components/Results/ResultsContainer.tsx:51-54 | the views get three modules ranked 1, 2, 3 with the highest scores |
| MultipleChoice.Remove | src/components/Assessment/QuestionTypes/MultipleChoiceQuestion.tsx:28 | the filter removes every occurrence of the value and keeps every other value with its multiplicity |
| MultipleChoice.Toggle | src/components/Assessment/QuestionTypes/MultipleChoiceQuestion.tsx:27-31 | the value is selected afterwards iff it was not; other values are unaffected |
| MultipleChoice.HandleChange | src/components/Assessment/QuestionTypes/MultipleChoiceQuestion.tsx:24-35 | single-select emits the value; multi-select treats a non-list as [] and appends an absent value at the end or removes a present one |
| MultipleChoice.RemoveKeepsDistinct | src/components/Assessment/QuestionTypes/MultipleChoiceQuestion.tsx:28 | removing keeps a duplicate-free list duplicate-free |
| MultipleChoice.RemoveAbsent | src/components/Assessment/QuestionTypes/MultipleChoiceQuestion.tsx:28 | removing an absent value changes nothing |
| MultipleChoice.RemoveAppended | src/components/Assessment/QuestionTypes/MultipleChoiceQuestion.tsx:28-30 | removing a just-appended value restores the list |
| MultipleChoice.ToggleKeepsDistinct | src/components/Assessment/QuestionTypes/MultipleChoiceQuestion.tsx:26-31 | toggling keeps a duplicate-free selection duplicate-free |
| MultipleChoice.ToggleTwice | src/components/Assessment/QuestionTypes/MultipleChoiceQuestion.tsx:26-31 | toggling an absent value twice restores the selection |
| MultipleChoice.ClickFlipsSelection | src/components/Assessment/QuestionTypes/MultipleChoiceQuestion.tsx:24-41 | in a multi-select question a click flips `isSelected` of the clicked option only |
| MultipleChoice.ClickSelectsOnly | src/components/Assessment/QuestionTypes/MultipleChoiceQuestion.tsx:32-41 | in a single-select question the clicked option becomes the only selected one |
| Questionnaire.ProgressMonotone | src/components/Assessment/QuestionnaireContainer.tsx:22 | the progress bar never moves back as the index advances |
| Questionnaire.ProgressFull | src/components/Assessment/QuestionnaireContainer.tsx:22 | with fewer than 200 questions the bar reads 100 exactly on the last question |
| Questionnaire.BankProgress | src/components/Assessment/QuestionnaireContainer.tsx:22 | the eight readings: 13, 25, 38, 50, 63, 75, 88, 100 |
| Questionnaire.AnsweredAfterAnyValue | src/components/Assessment/QuestionnaireContainer.tsx:58-60 | storing any value, even an empty list or text, makes the question answered |
| Questionnaire.QuestionnaireContainer.constructor | src/components/Assessment/QuestionnaireContainer.tsx:15 | the walk starts at question 0 |
| Questionnaire.QuestionnaireContainer.CurrentQuestion | src/components/Assessment/QuestionnaireContainer.tsx:21 | the current question is always one of the bank |
| Questionnaire.QuestionnaireContainer.IsCurrentQuestionAnswered | src/components/Assessment/QuestionnaireContainer.tsx:58-60 | Next is enabled iff some stored answer carries the current question's id |
| Questionnaire.QuestionnaireContainer.CurrentAnswer | src/components/Assessment/QuestionnaireContainer.tsx:46 | the displayed answer exists iff the question is answered, and is the first stored answer with its id |
| Questionnaire.QuestionnaireContainer.HandleAnswer | src/components/Assessment/QuestionnaireContainer.tsx:23-28 | the answer is upserted into the session; the ranking is unchanged |
| Questionnaire.QuestionnaireContainer.HandleNext | src/components/Assessment/QuestionnaireContainer.tsx:29-38 | before the last question the index moves on; on it the ranking of the current answers is stored and the wizard continues; the index stays in range |
| Questionnaire.QuestionnaireContainer.HandlePrevious | src/components/Assessment/QuestionnaireContainer.tsx:39-43 | the index moves back unless it is 0 |
| Text.TrimStart | src/components/Introduction/ContactForm.tsx:33 | drops exactly the leading white space |
| Text.TrimEnd | src/components/Introduction/ContactForm.tsx:33 | drops exactly the trailing white space |
| Text.TrimEmptyIffBlank | src/components/Introduction/ContactForm.tsx:33-41 | `!s.trim()` holds exactly for strings made only of white space |
| Text.Show | src/components/Results/ImplementationRoadmap.tsx:59 | the decimal rendering is a non-empty digit string without a leading zero |
| Text.DecimalValueShow | src/components/Results/ImplementationRoadmap.tsx:59 | reading a rendered number back gives the number |
| Text.ShowInjective | src/components/Results/ImplementationRoadmap.tsx:59 | different numbers render differently |
| Text.RunLength | src/components/Results/ImplementationRoadmap.tsx:48 | the run of digits at a position is maximal |
| Text.ParseIntShow | src/components/Results/ROICalculator.tsx:35 | `parseInt` reads back a rendered number, signed or not, whatever non-digit follows |
| Text.ParseIntNoDigits | src/components/Results/ROICalculator.tsx:35 | a string without digits is NaN, which `\|\| 0` makes 0 |
| ContactForm.Set | src/components/Introduction/ContactForm.tsx:26-29 | the named field takes the value; the others keep theirs |
| ContactForm.TrimsToEmpty | src/components/Introduction/ContactForm.tsx:33 | `!s.trim()` is true exactly for blank strings |
| ContactForm.CollectErrors | src/components/Introduction/ContactForm.tsx:31-43 | one message per failing field and none for the others; email says "required" when blank, else "invalid"; the map is empty iff the form is valid |
| ContactForm.MatchingEmailNotBlank | src/components/Introduction/ContactForm.tsx:35-39 | a string matching the pattern is never blank, so the two email messages never clash |
| ContactForm.EmailPatternUnanchored | src/components/Introduction/ContactForm.tsx:37 | the pattern is unanchored: any text around a match still matches |
| ContactForm.PlainEmailMatches | src/components/Introduction/ContactForm.tsx:37 | a plain address such as jane@example.com matches |
| ContactForm.SurroundedEmailMatches | src/components/Introduction/ContactForm.tsx:37 | an address with spaces and text around it still matches |
| ContactForm.NoDotNoMatch | src/components/Introduction/ContactForm.tsx:37 | without a '.' after the '@' nothing matches |
| ContactForm.NoTextBeforeAtNoMatch | src/components/Introduction/ContactForm.tsx:37 | an '@' preceded only by white space cannot match |
| ContactForm.EmailCounterexamples | src/components/Introduction/ContactForm.tsx:37 | concrete strings the pattern rejects |
| ContactForm.ContactFormState.constructor | src/components/Introduction/ContactForm.tsx:13-20 | the form starts with five empty fields and no errors |
| ContactForm.ContactFormState.HandleChange | src/components/Introduction/ContactForm.tsx:21-30 | only the named field changes |
| ContactForm.ContactFormState.Validate | src/components/Introduction/ContactForm.tsx:31-44 | the error state becomes the failing fields' messages; the result is true iff the form is valid |
| ContactForm.ContactFormState.HandleSubmit | src/components/Introduction/ContactForm.tsx:45-51 | corrected: a valid form is stored untrimmed and the wizard continues; otherwise nothing is stored and the step stays |
| ContactForm.ContactFormState.HandleSkip | src/components/Introduction/ContactForm.tsx:52-56 | corrected: skipping stores nothing and continues |
| ContactForm.SubmitAsWritten | src/components/Introduction/ContactForm.tsx:10-12 | as written: a valid submit throws unless the context provides `setContactInfo` |
| ContactForm.SkipAsWritten | src/components/Introduction/ContactForm.tsx:52-56 | as written: skipping completes only if the context provides `setContactInfo` |
| ContactForm.ContactStepThrows | src/components/Introduction/ContactForm.tsx:48 | against the context as written, a valid submit and a skip both throw, so the contact step never continues |
| ModuleRecommendations.TailoredAdvice | src/components/Results/ModuleRecommendations.tsx:71-111 | a catalog module gets advice about itself; any other id gets the phased-approach advice |
| ModuleRecommendations.ModuleIdsOfCatalog | src/data/modules.ts:2-37 | the advice switch covers exactly the catalog ids, in order |
| ModuleRecommendations.AdviceFollowsRules | src/components/Results/ModuleRecommendations.tsx:75-105 | the focused advice for itsm, itom, itbm, hrsd and csm fires on rows of the scoring table; app_engine's on an integration gap |
| ModuleRecommendations.ItsmAdviceScored | src/components/Results/ModuleRecommendations.tsx:75 | the focused itsm advice implies an itsm score of at least 20 |
| ModuleRecommendations.ItomAdviceScored | src/components/Results/ModuleRecommendations.tsx:81 | the focused itom advice implies itom at least 10 and itsm at least 15 |
| ModuleRecommendations.ItbmAdviceScored | src/components/Results/ModuleRecommendations.tsx:87 | the focused itbm advice implies itbm at least 20 and itom at least 15 |
| ModuleRecommendations.AutomationAdviceScored | src/components/Results/ModuleRecommendations.tsx:93-99 | the focused hrsd advice implies an hrsd score of at least 25, and the focused csm advice a csm score of at least 25 |
| ModuleRecommendations.ResourcesOfModules | src/components/Results/ModuleRecommendations.tsx:119 | `moduleResources[id] \|\| {}`: each catalog module has five links in the table, including the common four; an unknown id gets none |
| ModuleRecommendations.Cards | src/components/Results/ModuleRecommendations.tsx:118-119 | one card per top module |
| ModuleRecommendations.CardsOfRecommendations | src/components/Results/ModuleRecommendations.tsx:118-119 | for an engine ranking: three cards ranked 1-3, each with advice about its own module and five links |
| Roadmap.RangeAt | src/components/Results/ImplementationRoadmap.tsx:48 | a match at a position yields two non-empty digit groups |
| Roadmap.FindRange | src/components/Results/ImplementationRoadmap.tsx:48 | the search yields two non-empty digit groups or nothing |
| Roadmap.FindRangeLeftmost | src/components/Results/ImplementationRoadmap.tsx:48 | the search returns the leftmost match, or none exists anywhere |
| Roadmap.MonthsFromTimeframe | src/components/Results/ImplementationRoadmap.tsx:47-53 | never negative; 3 when there is no match |
| Roadmap.ParseIntOfDigits | src/components/Results/ImplementationRoadmap.tsx:50 | `parseInt` of a digit group is its decimal value |
| Roadmap.MonthsOfRange | src/components/Results/ImplementationRoadmap.tsx:47-51 | a written range low-high reads as (low + high) / 2, whatever follows |
| Roadmap.RangeOfWritten | src/components/Results/ImplementationRoadmap.tsx:48 | two digit strings joined by '-' are the match, group for group |
| Roadmap.MonthsOfDigitPair | src/components/Results/ImplementationRoadmap.tsx:47-51 | a timeframe starting with digit-digit reads as their midpoint |
| Roadmap.DigitPairRange | src/components/Results/ImplementationRoadmap.tsx:48 | the groups of a timeframe starting with digit-digit are those two digits |
| Roadmap.CatalogRanges | src/data/modules.ts:6-34 | the catalog ranges 3-6, 4-8, 4-7, 2-5 and 3-6 are read, each with low below high |
| Roadmap.CatalogDurations | src/data/modules.ts:6-34 | the first five durations are 4.5, 6, 5.5, 3.5 and 4.5 months |
| Roadmap.AppEngineDuration | src/data/modules.ts:41 | "1-6 months (varies by app)" holds the range 1-6 and reads as 3.5 |
| Roadmap.TimelinePosition | src/components/Results/ImplementationRoadmap.tsx:22-45 | priority 1 spans [0, d1], 2 [d1/2, d1/2 + d2], 3 [3 d1/4, 3 d1/4 + d3], others [0, 0]; each start ≥ 0 and each width is its own duration |
| Roadmap.MaxOf | src/components/Results/ImplementationRoadmap.tsx:55 | `Math.max` is an element and bounds all of them |
| Roadmap.Ceil | src/components/Results/ImplementationRoadmap.tsx:55 | `Math.ceil` is the least integer at or above its argument |
| Roadmap.TotalMonthsCovers | src/components/Results/ImplementationRoadmap.tsx:55 | the timeline reaches every module's end, and one month less would cut some module short |
| Roadmap.MonthLabels | src/components/Results/ImplementationRoadmap.tsx:57-59 | total + 1 labels, "Month 0" to "Month total" |
| Roadmap.MonthLabelsDistinct | src/components/Results/ImplementationRoadmap.tsx:57-59 | no two labels coincide |
| Roadmap.BarFits | src/components/Results/ImplementationRoadmap.tsx:203-205 | a span within the timeline draws a bar with non-negative offset and width, ending by 100% |
| Roadmap.BarsWithinTimeline | src/components/Results/ImplementationRoadmap.tsx:202-205 | every top module's bar lies within the drawn timeline |
| Roadmap.RankedTopPlaceable | src/components/Results/ImplementationRoadmap.tsx:20-37 | the top of any ranking has the three modules placement reads |
| Roadmap.NoAnswersTimeline | src/components/Results/ImplementationRoadmap.tsx:20-59 | with no answers: spans 0-4.5, 2.25-8.25, 3.375-8.875; 9 months; 10 labels |
| Roadmap.Staggered | src/components/Results/ImplementationRoadmap.tsx:22-38 | the three spans and their ends for durations d0, d1, d2 |
| Roadmap.GetImplementationTips | src/components/Results/ImplementationRoadmap.tsx:104-151 | each tip appears iff its answer test holds (a whitespace-only manual_processes text counts); Phased iff no other, alone; 1-3 tips in checking order |
| Roadmap.TipTitlesDistinct | src/components/Results/ImplementationRoadmap.tsx:109-142 | the tip titles tell the tips apart |
| RoiCalculator.Set | src/components/Results/ROICalculator.tsx:33-36 | the named input takes the value; the others keep theirs |
| RoiCalculator.RoiCalculatorState.constructor | src/components/Results/ROICalculator.tsx:21-27 | inputs start at 75000, 100, 500, 4 and 24 |
| RoiCalculator.RoiCalculatorState.HandleInputChange | src/components/Results/ROICalculator.tsx:28-37 | the named input becomes `parseInt(value) \|\| 0`; the others are unchanged |
| RoiCalculator.TypedNumberStored | src/components/Results/ROICalculator.tsx:35 | a typed decimal number, negative included, is stored as that number |
| RoiCalculator.ClearedFieldIsZero | src/components/Results/ROICalculator.tsx:35 | a cleared field, or one with no digit, is stored as 0 |
| RoiCalculator.ModuleCost | src/components/Results/ROICalculator.tsx:58 | each module costs between 50000 and 100000 |
| RoiCalculator.CostSumBounds | src/components/Results/ROICalculator.tsx:56-60 | n modules cost between 50000 n and 100000 n |
| RoiCalculator.ImplementationCostBounds | src/components/Results/ROICalculator.tsx:56-60 | only three modules are costed: at most 300000; positive iff there is a module |
| RoiCalculator.CostOfRanked | src/components/Results/ROICalculator.tsx:56-60 | modules ranked 1, 2, 3 cost 225000 |
| RoiCalculator.RecommendationsCost | src/components/Results/ROICalculator.tsx:56-60 | any engine ranking costs exactly 225000 |
| RoiCalculator.GetRoiInsights | src/components/Results/ROICalculator.tsx:112-151 | each insight appears iff its answer test holds; the general one iff no other, alone; 1-3 insights in checking order |
| ExecutiveSummary.KeyBenefit | src/components/Results/ExecutiveSummary.tsx:166 | `benefits[0]` is defined iff the module lists a benefit, and is one of them |
| ExecutiveSummary.KeyBenefits | src/components/Results/ExecutiveSummary.tsx:166 | one key benefit per top module |
| ExecutiveSummary.KeyBenefitsOfRecommendations | src/components/Results/ExecutiveSummary.tsx:166 | for an engine ranking, three benefits, each the first of its catalog entry's four |
| ExecutiveSummary.GetStrategicInsights | src/components/Results/ExecutiveSummary.tsx:60-105 | fails with a TypeError iff the first bottlenecks answer is a number while some bottlenecks answer is a non-empty list; otherwise yields the fired insights or the default |
| ExecutiveSummary.StrategicInsightsShown | src/components/Results/ExecutiveSummary.tsx:63-104 | each insight is shown iff its need shows; Digital Transformation iff none does, alone; 1-4 insights in checking order |
| ExecutiveSummary.BottlenecksReadFromCheckedAnswer | src/components/Results/ExecutiveSummary.tsx:63-64 | with one answer per question, the list checked is the list read, so nothing throws |
| ExecutiveSummary.DuplicateBottlenecksReadFirst | src/components/Results/ExecutiveSummary.tsx:63-65 | with two bottlenecks answers the first is read even when the check passed on the second |
| ExecutiveSummary.RelevantIndustry | src/components/Results/ExecutiveSummary.tsx:108-112 | always "financial", an industry with a resource page |

## Left out

- Rendering, styling and the presentational components (Stepper, Header, Footer, Welcome, Button, ScaleQuestion, OpenEndedQuestion, tab switching): no decision logic.
- Marketing texts and URLs: advice, tips, insights, resource entries and industry pages are named values, not strings.
- ROI floating-point metrics (src/components/Results/ROICalculator.tsx:41-54, 62-73) and the chart: IEEE-754 arithmetic, with Infinity or NaN when savings are 0. Only the integer cost lookup is modelled.
- React hook semantics: state batching, stale closures and re-rendering. Each setter is an atomic field update.
- The timeline markers' percentages (src/components/Results/ImplementationRoadmap.tsx:195-196): style values only.
- Contact-info storage: the session has no contact-info field. The corrected submit and skip report what would be stored.
- Roadmap.TimelinePosition: requires the top list to hold every module the source reads. With fewer than three ranked modules the source reads a field of `undefined` and throws; that path is not modelled. The engine always ranks six modules (Roadmap.RankedTopPlaceable).
- Roadmap.TotalMonths: requires a non-empty top list. `Math.max()` of nothing is -Infinity, which the model does not represent.
- Roadmap.BarPercent: requires a positive timeline length. Division by 0 gives Infinity or NaN in the source.
- Roadmap.MonthsFromTimeframe: digit groups are read exactly. Numbers beyond 2^53 lose precision in JavaScript.
- Text.ParseIntShow: `parseInt` is modelled on unbounded integers. Values beyond 2^53 lose precision in JavaScript, and Infinity is not modelled.
- RoiCalculator.RoiCalculatorState.HandleInputChange: `name` is one of the five inputs. An input with another name would add a new key in the source.
- Questionnaire.Progress: `Math.round((index + 1) / count * 100)` is computed on exact rationals, not IEEE-754 doubles. The two differ for some longer questionnaires: at index 22 of 40 the double product is 57.49999999999999 and rounds to 57, where the exact value 57.5 rounds to 58 (likewise index 28 of 200). Every count up to 20 agrees, so the 8-question bank is unaffected (Questionnaire.BankProgress).
- Numeric answers are integers. The scale questions only produce 1 to 5; fractional numbers are not modelled.
- ModuleRecommendations.Resources: the lookup covers the six table keys. Inherited object keys such as `toString` are not modelled.

## Findings

| source | as written | input that shows it | evidently intended | confidence | as-written member | corrected member |
|---|---|---|---|---|---|---|
| src/components/Introduction/ContactForm.tsx:10-12 | The form reads `setContactInfo` from `useAssessment()`. The context provides only answers, addAnswer, recommendedModules and setRecommendedModules (src/context/AssessmentContext.tsx:13-18, 35-40). So `setContactInfo(...)` throws "is not a function" before `onContinue()`. | Submitting FormData("Jane", "Doe", "jane@example.com", "Acme", "CIO"), which passes validation, or pressing Skip | A valid submit stores the form and continues; skip stores null and continues | not executed | ContactForm.ContactStepThrows | ContactForm.ContactFormState.HandleSubmit |
