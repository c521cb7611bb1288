/**
 * The policy matrix: a first-match decision list from an outbreak's risk
 * level, case trend and signal severity to a monitoring posture.
 */
module Policy {

  datatype MonitoringLevel = Routine | Enhanced | ActiveResponse

  datatype AdvisoryCode = Green | Yellow | Orange | Red

  /** The trend labels the matrix accepts. */
  datatype TrendLabel = Increasing | Decreasing | Stable | Unknown

  /** The risk level is a free string: values other than the four known ones are accepted. */
  datatype MatrixInput = MatrixInput(riskLevel: string, caseTrend: TrendLabel, severityScore: real)

  /**
   * The reasoning sentences of the matrix rows. Each constructor stands for
   * one fixed sentence; `ReasoningText` gives it.
   */
  datatype Reasoning =
    | CriticalPosture | HighEscalating | HighStable | MediumRising | MediumSteady | LowRising | Baseline

  /** The recommended actions of the matrix rows; `ActionText` gives the wording. */
  datatype Action =
    | ActivateEoc | DailySitreps | MobilizeRapidResponse
    | FourHourSurveillance | PrepareIsolation | IssueAdvisories
    | EnhancedSurveillance | MonitorCrossBorder
    | ReviewCaseDefinitions | AlertRegionalOffices
    | RoutineSentinel | WeeklyReporting
    | InvestigateVariants | VerifyDataQuality
    | StandardReporting | MaintainSentinel

  datatype PolicyStatus = PolicyStatus(
    monitoringLevel: MonitoringLevel,
    advisoryCode: AdvisoryCode,
    reasoning: Reasoning,
    recommendedActions: seq<Action>)

  function ReasoningText(r: Reasoning): string
  {
    match r
    case CriticalPosture => "Critical risk classification requires immediate active response posture."
    case HighEscalating => "High risk pathogen with escalating transmission or critical signal severity."
    case HighStable => "High risk pathogen detected but transmission indicators are currently stable."
    case MediumRising => "Medium risk pathogen showing upward transmission trend."
    case MediumSteady => "Medium risk pathogen with stable or decreasing transmission."
    case LowRising => "Low risk pathogen showing unexpected transmission increase."
    case Baseline => "Baseline surveillance. No critical indicators detected."
  }

  function ActionText(a: Action): string
  {
    match a
    case ActivateEoc => "Activate Emergency Operations Center (EOC)"
    case DailySitreps => "Daily situational reports required"
    case MobilizeRapidResponse => "Mobilize rapid response teams"
    case FourHourSurveillance => "Increase surveillance frequency to 4-hour intervals"
    case PrepareIsolation => "Prepare isolation capacity"
    case IssueAdvisories => "Issue public health advisories"
    case EnhancedSurveillance => "Enhanced surveillance active"
    case MonitorCrossBorder => "Monitor cross-border transmission"
    case ReviewCaseDefinitions => "Review case definitions"
    case AlertRegionalOffices => "Alert regional health offices"
    case RoutineSentinel => "Routine sentinel surveillance"
    case WeeklyReporting => "Weekly reporting cycle"
    case InvestigateVariants => "Investigate potential new variants"
    case VerifyDataQuality => "Verify data quality"
    case StandardReporting => "Standard reporting duties"
    case MaintainSentinel => "Maintain sentinel monitoring"
  }

  /** The `recommended_actions` strings of a status. */
  function ActionTexts(r: PolicyStatus): (texts: seq<string>)
    ensures |texts| == |r.recommendedActions|
    ensures forall i :: 0 <= i < |texts| ==> texts[i] == ActionText(r.recommendedActions[i])
  {
    seq(|r.recommendedActions|, i requires 0 <= i < |r.recommendedActions| => ActionText(r.recommendedActions[i]))
  }

  /** The posture each advisory code stands for. */
  function LevelOf(code: AdvisoryCode): MonitoringLevel {
    match code
    case Red => ActiveResponse
    case Orange => ActiveResponse
    case Yellow => Enhanced
    case Green => Routine
  }

  /** Advisory codes ordered by urgency. */
  function Urgency(code: AdvisoryCode): nat {
    match code
    case Green => 0
    case Yellow => 1
    case Orange => 2
    case Red => 3
  }

  /** The rows of the matrix that escalate: critical always, high when escalating or severe. */
  predicate Escalated(input: MatrixInput) {
    input.riskLevel == "high" && (input.caseTrend == Increasing || input.severityScore > 5.0)
  }

  /** Neither critical nor high: the medium rows and the default rows. */
  predicate Moderate(input: MatrixInput) {
    input.riskLevel != "critical" && input.riskLevel != "high"
  }

  function CalculatePolicyStatus(input: MatrixInput): (r: PolicyStatus)
    ensures r.advisoryCode == Red <==> input.riskLevel == "critical"
    ensures r.advisoryCode == Orange <==> Escalated(input)
    ensures r.advisoryCode == Yellow <==>
              (input.riskLevel == "high" && !Escalated(input)) || (Moderate(input) && input.caseTrend == Increasing)
    ensures r.advisoryCode == Green <==> Moderate(input) && input.caseTrend != Increasing
    ensures r.monitoringLevel == LevelOf(r.advisoryCode)
    ensures |r.recommendedActions| == if r.monitoringLevel == ActiveResponse then 3 else 2
  {
    if input.riskLevel == "critical" then
      PolicyStatus(ActiveResponse, Red, CriticalPosture, [ActivateEoc, DailySitreps, MobilizeRapidResponse])
    else if input.riskLevel == "high" then
      if input.caseTrend == Increasing || input.severityScore > 5.0 then
        PolicyStatus(ActiveResponse, Orange, HighEscalating, [FourHourSurveillance, PrepareIsolation, IssueAdvisories])
      else
        PolicyStatus(Enhanced, Yellow, HighStable, [EnhancedSurveillance, MonitorCrossBorder])
    else if input.riskLevel == "medium" then
      if input.caseTrend == Increasing then
        PolicyStatus(Enhanced, Yellow, MediumRising, [ReviewCaseDefinitions, AlertRegionalOffices])
      else
        PolicyStatus(Routine, Green, MediumSteady, [RoutineSentinel, WeeklyReporting])
    else if input.caseTrend == Increasing then
      PolicyStatus(Enhanced, Yellow, LowRising, [InvestigateVariants, VerifyDataQuality])
    else
      PolicyStatus(Routine, Green, Baseline, [StandardReporting, MaintainSentinel])
  }

  /** Critical risk means red, active response and the emergency operations centre, whatever else holds. */
  lemma CriticalIsAlwaysRed(trend: TrendLabel, severity: real)
    ensures var r := CalculatePolicyStatus(MatrixInput("critical", trend, severity));
            r.advisoryCode == Red && r.monitoringLevel == ActiveResponse
            && ActivateEoc in r.recommendedActions
  {
  }

  /** The severity score is read only for high risk. */
  lemma SeverityMattersOnlyForHigh(risk: string, trend: TrendLabel, s1: real, s2: real)
    requires risk != "high"
    ensures CalculatePolicyStatus(MatrixInput(risk, trend, s1)) == CalculatePolicyStatus(MatrixInput(risk, trend, s2))
  {
  }

  /** A higher severity score never lowers the advisory. */
  lemma UrgencyMonotoneInSeverity(risk: string, trend: TrendLabel, s1: real, s2: real)
    requires s1 <= s2
    ensures Urgency(CalculatePolicyStatus(MatrixInput(risk, trend, s1)).advisoryCode)
            <= Urgency(CalculatePolicyStatus(MatrixInput(risk, trend, s2)).advisoryCode)
  {
  }

  /** An increasing trend never lowers the advisory. */
  lemma UrgencyMonotoneInTrend(risk: string, trend: TrendLabel, severity: real)
    ensures Urgency(CalculatePolicyStatus(MatrixInput(risk, trend, severity)).advisoryCode)
            <= Urgency(CalculatePolicyStatus(MatrixInput(risk, Increasing, severity)).advisoryCode)
  {
  }

  /** Unknown risk strings fall through to the same rows as "low". */
  lemma UnknownRiskActsAsLow(risk: string, trend: TrendLabel, severity: real)
    requires risk !in {"critical", "high", "medium"}
    ensures CalculatePolicyStatus(MatrixInput(risk, trend, severity))
            == CalculatePolicyStatus(MatrixInput("low", trend, severity))
  {
  }

  /** The four cases pinned by the matrix's unit tests. */
  lemma PinnedCases()
    ensures var r := CalculatePolicyStatus(MatrixInput("critical", Increasing, 8.0));
            r.monitoringLevel == ActiveResponse && r.advisoryCode == Red
            && ActivateEoc in r.recommendedActions
    ensures var r := CalculatePolicyStatus(MatrixInput("high", Increasing, 6.0));
            r.monitoringLevel == ActiveResponse && r.advisoryCode == Orange
    ensures var r := CalculatePolicyStatus(MatrixInput("high", Stable, 4.0));
            r.monitoringLevel == Enhanced && r.advisoryCode == Yellow
    ensures var r := CalculatePolicyStatus(MatrixInput("low", Stable, 2.0));
            r.monitoringLevel == Routine && r.advisoryCode == Green
  {
  }
}
