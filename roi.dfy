/** The ROI calculator (src/components/Results/ROICalculator.tsx): the organisation
    parameters the user edits, the implementation cost of the top three modules, and the
    tailored ROI insights. The floating-point savings, ROI percentage and payback period are
    not part of this model. */
module RoiCalculator {
  import opened Text
  import opened Answers
  import opened RecommendationEngine
  import opened Results

  // The parameters: `inputs` and `handleInputChange`.

  /** The five number inputs, by their `name` attribute. */
  datatype Input = EmployeeCost | EmployeeCount | IncidentCount | IncidentResolutionTime | Downtime

  datatype RoiInputs = RoiInputs(
    employeeCost: int,
    employeeCount: int,
    incidentCount: int,
    incidentResolutionTime: int,
    downtime: int)

  /** The values the calculator starts from. */
  const DefaultInputs := RoiInputs(75000, 100, 500, 4, 24)

  function Get(inputs: RoiInputs, field: Input): int {
    match field
    case EmployeeCost => inputs.employeeCost
    case EmployeeCount => inputs.employeeCount
    case IncidentCount => inputs.incidentCount
    case IncidentResolutionTime => inputs.incidentResolutionTime
    case Downtime => inputs.downtime
  }

  /** `{ ...prev, [name]: value }`: the named parameter takes the value, the others keep theirs. */
  function Set(inputs: RoiInputs, field: Input, value: int): (r: RoiInputs)
    ensures Get(r, field) == value
    ensures forall f :: f != field ==> Get(r, f) == Get(inputs, f)
  {
    match field
    case EmployeeCost => inputs.(employeeCost := value)
    case EmployeeCount => inputs.(employeeCount := value)
    case IncidentCount => inputs.(incidentCount := value)
    case IncidentResolutionTime => inputs.(incidentResolutionTime := value)
    case Downtime => inputs.(downtime := value)
  }

  class RoiCalculatorState {
    var inputs: RoiInputs

    constructor()
      ensures inputs == DefaultInputs
    {
      inputs := DefaultInputs;
    }

    /** `handleInputChange`: the edited parameter becomes `parseInt(value) || 0`. */
    method HandleInputChange(name: Input, value: string)
      modifies this
      ensures inputs == Set(old(inputs), name, ParseIntOrZero(value))
      ensures Get(inputs, name) == ParseIntOrZero(value)
      ensures forall f :: f != name ==> Get(inputs, f) == Get(old(inputs), f)
    {
      inputs := Set(inputs, name, ParseIntOrZero(value));
    }
  }

  /** A number typed in decimal, with or without a minus sign, is stored as that number;
      negative values are kept as they are. */
  lemma TypedNumberStored(inputs: RoiInputs, field: Input, n: nat, negative: bool)
    ensures var typed := (if negative then "-" else "") + Show(n);
      Get(Set(inputs, field, ParseIntOrZero(typed)), field) == if negative then -(n as int) else n as int
  {
    assert Show(n) + [] == Show(n);
    ParseIntShow(n, negative, []);
  }

  /** A cleared field, or one holding no digit at all, is stored as 0. */
  lemma ClearedFieldIsZero(inputs: RoiInputs, field: Input, value: string)
    requires forall i :: 0 <= i < |value| ==> !IsHexDigit(value[i])
    ensures Get(Set(inputs, field, ParseIntOrZero(value)), field) == 0
  {
    ParseIntNoDigits(value);
  }

  // The implementation cost: `topModules.reduce(...)`.

  /** The rough cost of one module by its priority. */
  function ModuleCost(priority: int): (cost: nat)
    ensures 50000 <= cost <= 100000
  {
    if priority == 1 then 100000 else if priority == 2 then 75000 else 50000
  }

  /** The costs summed from the left, as `reduce` does. */
  function CostSum(top: seq<RankedModule>): int {
    if top == [] then 0 else CostSum(top[..|top| - 1]) + ModuleCost(top[|top| - 1].priority)
  }

  /** `implementationCost`: the summed cost of the first three modules. */
  function ImplementationCost(modules: seq<RankedModule>): int {
    CostSum(TopModules(modules))
  }

  /** Every module costs between 50000 and 100000, so the sum is positive whenever there is a
      module to implement, and the ROI division has a non-zero divisor. */
  lemma {:induction false} CostSumBounds(top: seq<RankedModule>)
    ensures 50000 * |top| <= CostSum(top) <= 100000 * |top|
  {
    if top != [] {
      CostSumBounds(top[..|top| - 1]);
    }
  }

  /** Only the first three modules are costed: at most 300000, whatever the list. */
  lemma ImplementationCostBounds(modules: seq<RankedModule>)
    ensures modules != [] ==> ImplementationCost(modules) >= 50000
    ensures modules == [] ==> ImplementationCost(modules) == 0
    ensures ImplementationCost(modules) <= 300000
  {
    CostSumBounds(TopModules(modules));
  }

  /** Three modules ranked 1, 2 and 3 cost 225000. */
  lemma CostOfRanked(top: seq<RankedModule>)
    requires |top| == 3 && forall i :: 0 <= i < 3 ==> top[i].priority == i + 1
    ensures CostSum(top) == 225000
  {
    assert top[..2][..1] == top[..1];
    assert top[..1][..0] == [];
    assert CostSum(top[..1]) == 100000;
    assert CostSum(top[..2]) == 175000;
    assert top[..3] == top;
  }

  /** Any ranking the engine produces costs exactly 225000. */
  lemma RecommendationsCost(answers: seq<Answer>)
    ensures ImplementationCost(Recommendations(answers)) == 225000
  {
    TopOfRanking(answers);
    CostOfRanked(TopModules(Recommendations(answers)));
  }

  // Insights: `getRoiInsights`.

  /** The ROI insights, in the order they are added. */
  datatype Insight = IncidentResolutionImpact | ServiceAvailabilityValue | IntegrationRoi | ValueRealization

  function InsightTitle(insight: Insight): string {
    match insight
    case IncidentResolutionImpact => "Incident Resolution Impact"
    case ServiceAvailabilityValue => "Service Availability Value"
    case IntegrationRoi => "Integration ROI"
    case ValueRealization => "ServiceNow Value Realization"
  }

  function InsightRank(insight: Insight): nat {
    match insight
    case IncidentResolutionImpact => 0
    case ServiceAvailabilityValue => 1
    case IntegrationRoi => 2
    case ValueRealization => 3
  }

  /** The three insights the answers can call for, and the general one when none applies; each
      at most once, in the order they are checked. */
  method GetRoiInsights(answers: seq<Answer>) returns (insights: seq<Insight>)
    ensures IncidentResolutionImpact in insights <==> exists a :: a in answers && SlowIncidentResponse(a)
    ensures ServiceAvailabilityValue in insights <==> exists a :: a in answers && DisruptionsAbove(a, 3)
    ensures IntegrationRoi in insights <==> exists a :: a in answers && IntegrationGap(a)
    ensures ValueRealization in insights <==> insights == [ValueRealization]
    ensures ValueRealization in insights <==> forall a :: a in answers ==>
      !SlowIncidentResponse(a) && !DisruptionsAbove(a, 3) && !IntegrationGap(a)
    ensures 1 <= |insights| <= 3
    ensures forall i, j :: 0 <= i < j < |insights| ==> InsightRank(insights[i]) < InsightRank(insights[j])
  {
    insights := [];
    if exists a | a in answers :: SlowIncidentResponse(a) {
      insights := insights + [IncidentResolutionImpact];
    }
    if exists a | a in answers :: DisruptionsAbove(a, 3) {
      insights := insights + [ServiceAvailabilityValue];
    }
    if exists a | a in answers :: IntegrationGap(a) {
      insights := insights + [IntegrationRoi];
    }
    if |insights| == 0 {
      insights := insights + [ValueRealization];
    }
  }
}
