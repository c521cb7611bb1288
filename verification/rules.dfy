/**
 * The deterministic rules behind the insight engine: the 7-point case trend,
 * the aggregate sentiment of news signals and the confidence score.
 * Percentages are exact reals; the confidence score is kept in hundredths.
 */
module Rules {

  import Text

  datatype TrendDirection = Increasing | Decreasing | Stable | InsufficientData

  /** `Positive` is part of the type but no rule produces it. */
  datatype SentimentAggregate = Negative | Neutral | Positive | Mixed

  datatype SignalLevel = Low | Medium | High

  /** One row of a case time series; `date` is the instant the series is sorted by. */
  datatype CasePoint = CasePoint(date: int, activeCases: int, recovered: int, critical: int)

  /** A news signal row as the data layer returns it. */
  datatype NewsSignal = NewsSignal(id: string, source: string, title: string, summary: string, signalLevel: SignalLevel)

  datatype CaseTrend = CaseTrend(direction: TrendDirection, percentageChange: real)

  // ---------------------------------------------------------------------------
  // The defensive sort: a stable sort of a copy, ascending by date

  ghost predicate SortedByDate(s: seq<CasePoint>) {
    forall i, j :: 0 <= i < j < |s| ==> s[i].date <= s[j].date
  }

  /** Places `x` after every element whose date is not later than its own. */
  function InsertByDate(sorted: seq<CasePoint>, x: CasePoint): seq<CasePoint>
  {
    if sorted == [] || sorted[|sorted| - 1].date <= x.date then
      sorted + [x]
    else
      InsertByDate(sorted[..|sorted| - 1], x) + [sorted[|sorted| - 1]]
  }

  /** Inserting adds `x` and nothing else, and keeps a sorted sequence sorted. */
  lemma {:induction false} InsertByDateSpec(sorted: seq<CasePoint>, x: CasePoint)
    ensures |InsertByDate(sorted, x)| == |sorted| + 1
    ensures multiset(InsertByDate(sorted, x)) == multiset(sorted) + multiset{x}
    ensures SortedByDate(sorted) ==> SortedByDate(InsertByDate(sorted, x))
    decreases |sorted|
  {
    if sorted == [] || sorted[|sorted| - 1].date <= x.date {
    } else {
      var init, last := sorted[..|sorted| - 1], sorted[|sorted| - 1];
      assert sorted == init + [last];
      InsertByDateSpec(init, x);
      var r := InsertByDate(init, x) + [last];
      assert InsertByDate(sorted, x) == r;
      if SortedByDate(sorted) {
        forall y | y in InsertByDate(init, x) ensures y.date <= last.date {
          assert y in multiset(init) + multiset{x};
        }
      }
    }
  }

  /** `[...timeseries].sort(byDate)`: the caller's sequence is a value and is left as it is. */
  function SortByDate(s: seq<CasePoint>): (r: seq<CasePoint>)
    ensures |r| == |s|
    ensures multiset(r) == multiset(s)
    ensures SortedByDate(r)
  {
    if s == [] then []
    else
      assert s == s[..|s| - 1] + [s[|s| - 1]];
      InsertByDateSpec(SortByDate(s[..|s| - 1]), s[|s| - 1]);
      InsertByDate(SortByDate(s[..|s| - 1]), s[|s| - 1])
  }

  /** The points of `s` dated `d`, in their order in `s`. */
  function WithDate(s: seq<CasePoint>, d: int): seq<CasePoint>
  {
    if s == [] then []
    else WithDate(s[..|s| - 1], d) + (if s[|s| - 1].date == d then [s[|s| - 1]] else [])
  }

  lemma {:induction false} WithDateAppend(a: seq<CasePoint>, b: seq<CasePoint>, d: int)
    ensures WithDate(a + b, d) == WithDate(a, d) + WithDate(b, d)
    decreases |b|
  {
    if b != [] {
      assert (a + b)[..|a + b| - 1] == a + b[..|b| - 1];
      WithDateAppend(a, b[..|b| - 1], d);
    } else {
      assert a + b == a;
    }
  }

  lemma {:induction false} InsertByDateStable(sorted: seq<CasePoint>, x: CasePoint, d: int)
    ensures WithDate(InsertByDate(sorted, x), d) == WithDate(sorted, d) + (if x.date == d then [x] else [])
    decreases |sorted|
  {
    if sorted == [] || sorted[|sorted| - 1].date <= x.date {
      WithDateAppend(sorted, [x], d);
    } else {
      var init, last := sorted[..|sorted| - 1], sorted[|sorted| - 1];
      assert InsertByDate(sorted, x) == InsertByDate(init, x) + [last];
      InsertByDateStable(init, x, d);
      WithDateAppend(InsertByDate(init, x), [last], d);
      assert sorted == init + [last];
      WithDateAppend(init, [last], d);
    }
  }

  /** The sort is stable: points sharing a date keep their relative order. */
  lemma {:induction false} SortByDateStable(s: seq<CasePoint>, d: int)
    ensures WithDate(SortByDate(s), d) == WithDate(s, d)
  {
    if s != [] {
      SortByDateStable(s[..|s| - 1], d);
      InsertByDateStable(SortByDate(s[..|s| - 1]), s[|s| - 1], d);
    }
  }

  /** A series already in date order is its own sorted copy. */
  lemma {:induction false} SortByDateOfSorted(s: seq<CasePoint>)
    requires SortedByDate(s)
    ensures SortByDate(s) == s
  {
    if s != [] {
      SortByDateOfSorted(s[..|s| - 1]);
    }
  }

  ghost predicate DistinctDates(s: seq<CasePoint>) {
    forall i, j :: 0 <= i < j < |s| ==> s[i].date != s[j].date
  }

  /** Two date-sorted series holding the same points, one with distinct dates, are equal. */
  lemma {:induction false} SortedPermutationsEqual(a: seq<CasePoint>, b: seq<CasePoint>)
    requires SortedByDate(a) && SortedByDate(b) && DistinctDates(a)
    requires multiset(a) == multiset(b)
    ensures a == b
    decreases |a|
  {
    assert |a| == |multiset(a)| == |multiset(b)| == |b|;
    if a != [] {
      assert a[0] in multiset(a);
      assert b[0] in multiset(b);
      var i :| 0 <= i < |a| && a[i] == b[0];
      var j :| 0 <= j < |b| && b[j] == a[0];
      assert a[0].date <= a[i].date == b[0].date <= b[j].date == a[0].date;
      assert i == 0;
      assert a[0] == b[0];
      Text.SameTails(a, b);
      SortedPermutationsEqual(a[1..], b[1..]);
    }
  }

  /** A point occurring twice in a bag occurs at two positions of any sequence holding it. */
  lemma {:induction false} TwoCopies(s: seq<CasePoint>, x: CasePoint) returns (p: nat, q: nat)
    requires multiset(s)[x] >= 2
    ensures p < q < |s| && s[p] == x && s[q] == x
  {
    var init := s[..|s| - 1];
    assert s == init + [s[|s| - 1]];
    if s[|s| - 1] == x {
      assert x in multiset(init);
      p :| 0 <= p < |init| && init[p] == x;
      q := |s| - 1;
    } else {
      p, q := TwoCopies(init, x);
    }
  }

  /** Two positions of `t` come from two distinct positions of a permutation `s` of it. */
  lemma PositionsInPermutation(s: seq<CasePoint>, t: seq<CasePoint>, i: nat, j: nat) returns (p: nat, q: nat)
    requires multiset(s) == multiset(t) && i < j < |t|
    ensures p < |s| && q < |s| && p != q && s[p] == t[i] && s[q] == t[j]
  {
    if t[i] == t[j] {
      assert t == t[..i] + [t[i]] + t[i + 1..j] + [t[j]] + t[j + 1..];
      assert multiset(s)[t[i]] >= 2;
      p, q := TwoCopies(s, t[i]);
    } else {
      assert t[i] in multiset(s) && t[j] in multiset(s);
      p :| 0 <= p < |s| && s[p] == t[i];
      q :| 0 <= q < |s| && s[q] == t[j];
    }
  }

  lemma DistinctDatesOfPermutation(s: seq<CasePoint>, t: seq<CasePoint>)
    requires DistinctDates(s) && multiset(s) == multiset(t)
    ensures DistinctDates(t)
  {
    forall i, j | 0 <= i < j < |t| ensures t[i].date != t[j].date {
      var p, q := PositionsInPermutation(s, t, i, j);
      if p < q {
        assert s[p].date != s[q].date;
      } else {
        assert s[q].date != s[p].date;
      }
    }
  }

  // ---------------------------------------------------------------------------
  // calculateCaseTrend

  /** The most recent point of the date-sorted copy. */
  function Latest(s: seq<CasePoint>): CasePoint
    requires |s| >= 7
  {
    SortByDate(s)[|s| - 1]
  }

  /** The baseline: element `length - 7` of the sorted copy, six positions before the latest. */
  function Baseline(s: seq<CasePoint>): CasePoint
    requires |s| >= 7
  {
    SortByDate(s)[|s| - 7]
  }

  /** The ±5% noise band: both bounds are strict. */
  function Classify(percentage: real): TrendDirection
  {
    if percentage > 5.0 then Increasing
    else if percentage < -5.0 then Decreasing
    else Stable
  }

  function CalculateCaseTrend(timeseries: seq<CasePoint>): (r: CaseTrend)
    ensures r.direction == InsufficientData <==> |timeseries| < 7 || Baseline(timeseries).activeCases == 0
    ensures r.direction == InsufficientData ==> r.percentageChange == 0.0
    ensures r.direction == Increasing <==> r.percentageChange > 5.0
    ensures r.direction == Decreasing <==> r.percentageChange < -5.0
    ensures r.direction == Stable <==> r.direction != InsufficientData && -5.0 <= r.percentageChange <= 5.0
    ensures r.direction != InsufficientData ==>
              r.percentageChange * Baseline(timeseries).activeCases as real
              == (Latest(timeseries).activeCases - Baseline(timeseries).activeCases) as real * 100.0
  {
    if |timeseries| < 7 then
      CaseTrend(InsufficientData, 0.0)
    else
      var latest, sevenDaysAgo := Latest(timeseries), Baseline(timeseries);
      if sevenDaysAgo.activeCases == 0 then
        CaseTrend(InsufficientData, 0.0)
      else
        var change := latest.activeCases - sevenDaysAgo.activeCases;
        var percentage := change as real / sevenDaysAgo.activeCases as real * 100.0;
        CaseTrend(Classify(percentage), percentage)
  }

  /**
   * With distinct dates the trend does not depend on the order the caller
   * passes the points in.
   */
  lemma CaseTrendPermutationInvariant(s: seq<CasePoint>, t: seq<CasePoint>)
    requires multiset(s) == multiset(t) && DistinctDates(s)
    ensures CalculateCaseTrend(s) == CalculateCaseTrend(t)
  {
    assert |s| == |multiset(s)| == |t|;
    DistinctDatesOfPermutation(s, SortByDate(s));
    SortedPermutationsEqual(SortByDate(s), SortByDate(t));
  }

  /** On a series already in date order the baseline is simply the point six before the last. */
  lemma TrendOfSortedSeries(s: seq<CasePoint>)
    requires |s| >= 7 && SortedByDate(s)
    ensures Latest(s) == s[|s| - 1] && Baseline(s) == s[|s| - 7]
  {
    SortByDateOfSorted(s);
  }

  /** A week from 100 to 150 active cases is an increase of exactly 50%. */
  lemma IncreasingScenario(s: seq<CasePoint>)
    requires |s| == 7 && SortedByDate(s)
    requires s[0].activeCases == 100 && s[6].activeCases == 150
    ensures CalculateCaseTrend(s) == CaseTrend(Increasing, 50.0)
  {
    TrendOfSortedSeries(s);
  }

  /** An unchanged, non-zero count over the week is stable with no change. */
  lemma FlatScenario(s: seq<CasePoint>)
    requires |s| == 7 && SortedByDate(s)
    requires s[0].activeCases == s[6].activeCases != 0
    ensures CalculateCaseTrend(s) == CaseTrend(Stable, 0.0)
  {
    TrendOfSortedSeries(s);
  }

  // ---------------------------------------------------------------------------
  // analyzeNewsSentiment

  /** The number of signals at `level`. */
  function CountLevel(signals: seq<NewsSignal>, level: SignalLevel): nat
  {
    if signals == [] then 0
    else CountLevel(signals[..|signals| - 1], level) + (if signals[|signals| - 1].signalLevel == level then 1 else 0)
  }

  predicate HasLevel(signals: seq<NewsSignal>, level: SignalLevel) {
    exists i | 0 <= i < |signals| :: signals[i].signalLevel == level
  }

  lemma {:induction false} CountLevelPositive(signals: seq<NewsSignal>, level: SignalLevel)
    ensures CountLevel(signals, level) > 0 <==> HasLevel(signals, level)
  {
    if signals != [] {
      var init := signals[..|signals| - 1];
      CountLevelPositive(init, level);
      if HasLevel(init, level) {
        var i :| 0 <= i < |init| && init[i].signalLevel == level;
        assert signals[i].signalLevel == level;
      }
      if HasLevel(signals, level) && signals[|signals| - 1].signalLevel != level {
        var i :| 0 <= i < |signals| && signals[i].signalLevel == level;
        assert init[i].signalLevel == level;
      }
    }
  }

  lemma {:induction false} CountLevelAppend(a: seq<NewsSignal>, b: seq<NewsSignal>, level: SignalLevel)
    ensures CountLevel(a + b, level) == CountLevel(a, level) + CountLevel(b, level)
    decreases |b|
  {
    if b == [] {
      assert a + b == a;
    } else {
      assert (a + b)[..|a + b| - 1] == a + b[..|b| - 1];
      CountLevelAppend(a, b[..|b| - 1], level);
    }
  }

  lemma CountLevelAround(b: seq<NewsSignal>, j: nat, level: SignalLevel)
    requires j < |b|
    ensures CountLevel(b, level)
            == CountLevel(b[..j] + b[j + 1..], level) + (if b[j].signalLevel == level then 1 else 0)
  {
    assert b == b[..j] + [b[j]] + b[j + 1..];
    CountLevelAppend(b[..j] + [b[j]], b[j + 1..], level);
    CountLevelAppend(b[..j], [b[j]], level);
    CountLevelAppend(b[..j], b[j + 1..], level);
  }

  /** The signals are treated as a collection: reordering them changes no count. */
  lemma {:induction false} CountLevelPermutation(a: seq<NewsSignal>, b: seq<NewsSignal>, level: SignalLevel)
    requires multiset(a) == multiset(b)
    ensures CountLevel(a, level) == CountLevel(b, level)
    decreases |a|
  {
    assert |a| == |multiset(a)| == |multiset(b)| == |b|;
    if a != [] {
      var x := a[|a| - 1];
      assert x in multiset(a);
      var j :| 0 <= j < |b| && b[j] == x;
      Text.RemoveMatching(a, |a| - 1, b, j);
      assert a[..|a| - 1] + a[|a|..] == a[..|a| - 1];
      CountLevelPermutation(a[..|a| - 1], b[..j] + b[j + 1..], level);
      CountLevelAround(b, j, level);
    }
  }

  method AnalyzeNewsSentiment(signals: seq<NewsSignal>) returns (r: SentimentAggregate)
    ensures r == Negative <==> HasLevel(signals, High)
    ensures r == Mixed <==> !HasLevel(signals, High) && CountLevel(signals, Medium) > 2
    ensures r == Neutral <==> !HasLevel(signals, High) && CountLevel(signals, Medium) <= 2
    ensures r != Positive
  {
    if |signals| == 0 {
      return Neutral;
    }
    var highSeverityCount, mediumSeverityCount := 0, 0;
    for i := 0 to |signals|
      invariant highSeverityCount == CountLevel(signals[..i], High)
      invariant mediumSeverityCount == CountLevel(signals[..i], Medium)
    {
      assert signals[..i + 1][..i] == signals[..i];
      if signals[i].signalLevel == High {
        highSeverityCount := highSeverityCount + 1;
      } else if signals[i].signalLevel == Medium {
        mediumSeverityCount := mediumSeverityCount + 1;
      }
    }
    assert signals[..|signals|] == signals;
    CountLevelPositive(signals, High);
    if highSeverityCount > 0 {
      return Negative;
    }
    if mediumSeverityCount > 2 {
      return Mixed;
    }
    return Neutral;
  }

  // ---------------------------------------------------------------------------
  // calculateConfidenceScore, in hundredths

  /**
   * Base 50, plus 20 for a series of 14 or more points (else 10 for 7 or more),
   * 10 for any news and 10 for any research, capped at 95.
   */
  function Confidence(seriesLength: nat, newsCount: nat, researchCount: int): (c: int)
    ensures 50 <= c <= 90
  {
    var completeness := if seriesLength >= 14 then 20 else if seriesLength >= 7 then 10 else 0;
    var corroboration := if newsCount > 0 then 10 else 0;
    var backing := if researchCount > 0 then 10 else 0;
    var score := 50 + completeness + corroboration + backing;
    if score < 95 then score else 95
  }

  method CalculateConfidenceScore(timeseries: seq<CasePoint>, news: seq<NewsSignal>, researchCount: int)
    returns (score: int)
    ensures score == Confidence(|timeseries|, |news|, researchCount)
  {
    score := 50;
    if |timeseries| >= 14 {
      score := score + 20;
    } else if |timeseries| >= 7 {
      score := score + 10;
    }
    if |news| > 0 {
      score := score + 10;
    }
    if researchCount > 0 {
      score := score + 10;
    }
    if score > 95 {
      score := 95;
    }
  }

  /** The score never decreases when any input grows. */
  lemma ConfidenceMonotone(l1: nat, n1: nat, r1: int, l2: nat, n2: nat, r2: int)
    requires l1 <= l2 && n1 <= n2 && r1 <= r2
    ensures Confidence(l1, n1, r1) <= Confidence(l2, n2, r2)
  {
  }

  /** The cap is never reached: the largest score is 90, so the sum is returned as it is. */
  lemma ConfidenceCapNeverBinds(l: nat, n: nat, r: int)
    ensures Confidence(l, n, r) < 95
    ensures Confidence(14, 1, 1) == 90
  {
  }
}
