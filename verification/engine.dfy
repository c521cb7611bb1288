/**
 * The insight composer: turns the three rule outputs, the outbreak's risk
 * level and the research count into an ordered list of fixed-template
 * bullets with a confidence score attached.
 */
module Engine {

  import opened Text
  import opened Rules

  /** The outbreak risk levels of the data model. */
  datatype RiskLevel = Low | Medium | High | Critical

  /** The outbreak record; only its risk level reaches the bullets. */
  datatype Outbreak = Outbreak(id: string, name: string, riskLevel: RiskLevel)

  datatype ResearchSource = ResearchSource(id: string, title: string)

  /**
   * The bullet templates. Each constructor stands for one fixed sentence and
   * carries the values the sentence prints; `Render` gives the sentence.
   */
  datatype Bullet =
    | CasesIncreased(magnitude: nat)
    | CasesDecreased(magnitude: nat)
    | CasesStable
    | TrendUndetermined
    | SevereMedia
    | MixedMedia
    | QuietMedia
    | NoMedia
    | ElevatedRisk(level: RiskLevel)
    | RoutineRisk(level: RiskLevel)
    | ResearchFound(count: nat)

  /** The generated insight, without its generation timestamp. */
  datatype GeneratedInsight = GeneratedInsight(summaryPoints: seq<Bullet>, confidenceLevel: int)

  /** The stored spelling of a risk level. */
  function RiskName(level: RiskLevel): string {
    match level
    case Low => "low"
    case Medium => "medium"
    case High => "high"
    case Critical => "critical"
  }

  /** `Math.round`: halves round towards positive infinity. */
  function Round(x: real): (n: int)
    ensures n as real - 0.5 <= x < n as real + 0.5
  {
    (x + 0.5).Floor
  }

  /** `Math.abs(Math.round(x))`: the whole-number size of a percentage as it is printed. */
  function Magnitude(x: real): nat
  {
    var n := Round(x);
    if n < 0 then -n else n
  }

  /** The sentence of each bullet, as the summary shows it. */
  function Render(b: Bullet): string
  {
    match b
    case CasesIncreased(m) =>
      "Active cases have increased by " + NatToString(m) + "% over the last 7 days, indicating a widening spread."
    case CasesDecreased(m) =>
      "Active cases have decreased by " + NatToString(m) + "% over the last 7 days, suggesting potential stabilization."
    case CasesStable =>
      "Case numbers remain stable with minor fluctuations (<5% change) over the past week."
    case TrendUndetermined =>
      "Insufficient time-series data to determine a conclusive 7-day trend."
    case SevereMedia =>
      "High-severity media signals detected, correlating with critical public health updates."
    case MixedMedia =>
      "Mixed media reporting indicates varying levels of concern across sources."
    case QuietMedia =>
      "Media volume is present but shows no critical severity indicators at this time."
    case NoMedia =>
      "No significant media signals detected in the configured surveillance window."
    case ElevatedRisk(level) =>
      "Current risk level is classified as " + ToUpper(RiskName(level)) + ", requiring active monitoring of transmission vectors."
    case RoutineRisk(level) =>
      "Risk level constitutes " + RiskName(level) + " priority monitoring."
    case ResearchFound(n) =>
      NatToString(n) + " relevant research article(s) identified, providing scientific context to the pathogen definition."
  }

  /** The `summary_points` strings of an insight. */
  function SummaryText(insight: GeneratedInsight): (r: seq<string>)
    ensures |r| == |insight.summaryPoints|
    ensures forall i :: 0 <= i < |r| ==> r[i] == Render(insight.summaryPoints[i])
  {
    seq(|insight.summaryPoints|, i requires 0 <= i < |insight.summaryPoints| => Render(insight.summaryPoints[i]))
  }

  // ---------------------------------------------------------------------------
  // The three if/else chains of generateInsightBullets

  /** The trend bullet for a trend result. */
  function TrendBullet(trend: CaseTrend): Bullet {
    if trend.direction == Increasing then CasesIncreased(Magnitude(trend.percentageChange))
    else if trend.direction == Decreasing then CasesDecreased(Magnitude(trend.percentageChange))
    else if trend.direction == Stable then CasesStable
    else TrendUndetermined
  }

  /** The media bullet: the sentiment is consulted only when there is news. */
  function MediaBullet(newsCount: nat, sentiment: SentimentAggregate): Bullet {
    if newsCount > 0 then
      if sentiment == Negative then SevereMedia
      else if sentiment == Mixed then MixedMedia
      else QuietMedia
    else NoMedia
  }

  /** The risk bullet: active-monitoring wording for critical and high only. */
  function RiskBullet(level: RiskLevel): Bullet {
    if level == RiskLevel.Critical || level == RiskLevel.High then ElevatedRisk(level) else RoutineRisk(level)
  }

  // ---------------------------------------------------------------------------
  // generateInsightBullets

  /**
   * `generateInsightBullets`. Three bullets, plus one when research exists,
   * so the cap at five never cuts: first the trend bullet, selected by the
   * trend direction; then the media bullet, where the sentiment plays no part
   * without news; then the risk bullet, with the active-monitoring wording for
   * critical and high only; last, only with research, the research bullet
   * stating the count.
   */
  method GenerateInsightBullets(outbreak: Outbreak, timeseries: seq<CasePoint>, news: seq<NewsSignal>,
                                research: seq<ResearchSource>)
    returns (insight: GeneratedInsight)
    ensures |insight.summaryPoints| == if |research| > 0 then 4 else 3
    ensures CalculateCaseTrend(timeseries).direction == Increasing ==>
              insight.summaryPoints[0] == CasesIncreased(Magnitude(CalculateCaseTrend(timeseries).percentageChange))
    ensures CalculateCaseTrend(timeseries).direction == Decreasing ==>
              insight.summaryPoints[0] == CasesDecreased(Magnitude(CalculateCaseTrend(timeseries).percentageChange))
    ensures CalculateCaseTrend(timeseries).direction == Stable ==> insight.summaryPoints[0] == CasesStable
    ensures CalculateCaseTrend(timeseries).direction == InsufficientData ==> insight.summaryPoints[0] == TrendUndetermined
    ensures |news| == 0 ==> insight.summaryPoints[1] == NoMedia
    ensures |news| > 0 && HasLevel(news, SignalLevel.High) ==> insight.summaryPoints[1] == SevereMedia
    ensures |news| > 0 && !HasLevel(news, SignalLevel.High) && CountLevel(news, SignalLevel.Medium) > 2 ==>
              insight.summaryPoints[1] == MixedMedia
    ensures |news| > 0 && !HasLevel(news, SignalLevel.High) && CountLevel(news, SignalLevel.Medium) <= 2 ==>
              insight.summaryPoints[1] == QuietMedia
    ensures outbreak.riskLevel == RiskLevel.Critical || outbreak.riskLevel == RiskLevel.High ==>
              insight.summaryPoints[2] == ElevatedRisk(outbreak.riskLevel)
    ensures outbreak.riskLevel == RiskLevel.Medium || outbreak.riskLevel == RiskLevel.Low ==>
              insight.summaryPoints[2] == RoutineRisk(outbreak.riskLevel)
    ensures |research| > 0 ==> insight.summaryPoints[3] == ResearchFound(|research|)
    ensures insight.confidenceLevel == Confidence(|timeseries|, |news|, |research|)
  {
    var bullets: seq<Bullet> := [];

    var trend := CalculateCaseTrend(timeseries);
    var sentiment := AnalyzeNewsSentiment(news);
    var confidence := CalculateConfidenceScore(timeseries, news, |research|);

    bullets := bullets + [TrendBullet(trend)];
    bullets := bullets + [MediaBullet(|news|, sentiment)];
    bullets := bullets + [RiskBullet(outbreak.riskLevel)];
    if |research| > 0 {
      bullets := bullets + [ResearchFound(|research|)];
    }

    insight := GeneratedInsight(Take(bullets, 5), confidence);
  }

  // ---------------------------------------------------------------------------
  // What the printed numbers say

  /** An increase or decrease is always reported as at least 5%. */
  lemma ReportedChangeAtLeastFive(timeseries: seq<CasePoint>)
    requires CalculateCaseTrend(timeseries).direction in {Increasing, Decreasing}
    ensures Magnitude(CalculateCaseTrend(timeseries).percentageChange) >= 5
  {
  }

  /**
   * The stable band includes its bounds, so the "(<5% change)" bullet is also
   * chosen when the change is exactly 5% either way.
   */
  lemma StableAtExactlyFivePercent(timeseries: seq<CasePoint>)
    requires |timeseries| >= 7 && Baseline(timeseries).activeCases == 100
    requires Latest(timeseries).activeCases in {95, 105}
    ensures CalculateCaseTrend(timeseries).direction == Stable
    ensures Magnitude(CalculateCaseTrend(timeseries).percentageChange) == 5
  {
  }
}
