/**
 * The epidemiology series builder: one point per date key of a historical
 * timeline, with the `M/D/YY` key rewritten as `YYYY-MM-DD`, missing counts
 * read as zero, and the points sorted in place by their date string.
 */
module Epidemiology {

  import opened Text

  datatype EpiPoint = EpiPoint(
    date: string,
    cases: int,
    deaths: int,
    recovered: int,
    hospitalized: int,
    positivityRate: int)

  /**
   * The historical timeline: `dates` are the keys of the cases table in their
   * enumeration order; each table maps a date key to a count.
   */
  datatype Timeline = Timeline(
    dates: seq<string>,
    cases: map<string, int>,
    deaths: map<string, int>,
    recovered: map<string, int>)

  // ---------------------------------------------------------------------------
  // normalizeDate

  predicate NoSlash(s: string) {
    forall j :: 0 <= j < |s| ==> s[j] != '/'
  }

  predicate AllDigits(s: string) {
    forall j :: 0 <= j < |s| ==> IsDigit(s[j])
  }

  /**
   * `normalizeDate`: a key of exactly three `/`-separated parts becomes
   * "20" + year + "-" + month + "-" + day with month and day padded to two
   * characters; any other key goes to `fallback`, which stands for parsing it
   * as a date and keeping the calendar part of its ISO form.
   */
  function NormalizeDate(d: string, fallback: string -> string): (r: string)
    ensures |Split(d, '/')| != 3 ==> r == fallback(d)
    ensures |Split(d, '/')| == 3 ==> StartsWith(r, "20") && |r| >= 8
  {
    var parts := Split(d, '/');
    if |parts| == 3 then
      var r := "20" + parts[2] + "-" + PadStart(parts[0], 2, '0') + "-" + PadStart(parts[1], 2, '0');
      assert r[..2] == "20";
      r
    else
      fallback(d)
  }

  /** `M/D/YY` is taken apart at its slashes: the year verbatim, month and day padded. */
  lemma NormalizeThreeParts(m: string, day: string, y: string, fallback: string -> string)
    requires NoSlash(m) && NoSlash(day) && NoSlash(y)
    ensures NormalizeDate(m + "/" + day + "/" + y, fallback)
            == "20" + y + "-" + PadStart(m, 2, '0') + "-" + PadStart(day, 2, '0')
  {
    SplitThree(m, day, y);
  }

  lemma SplitThree(m: string, day: string, y: string)
    requires NoSlash(m) && NoSlash(day) && NoSlash(y)
    ensures Split(m + "/" + day + "/" + y, '/') == [m, day, y]
  {
    var s := m + "/" + day + "/" + y;
    var rest := day + "/" + y;
    assert s == m + ['/'] + rest;
    SplitWithout(y, '/');
    SplitAt(day, y, '/');
    SplitAt(m, rest, '/');
  }

  /** Padding never truncates: a part of two or more characters is kept whole. */
  lemma PadKeepsLongParts(s: string)
    requires |s| >= 2
    ensures PadStart(s, 2, '0') == s
  {
    assert PadStart(s, 2, '0')[0..] == PadStart(s, 2, '0');
  }

  /** The calendar form the series is keyed on: `YYYY-MM-DD`, all digits but the two dashes. */
  predicate IsIsoDate(r: string) {
    && |r| == 10 && r[4] == '-' && r[7] == '-'
    && forall i :: 0 <= i < 10 && i != 4 && i != 7 ==> IsDigit(r[i])
  }

  /** Padding a one- or two-digit part gives exactly two digits. */
  lemma PadTwoDigits(s: string)
    requires 1 <= |s| <= 2 && AllDigits(s)
    ensures |PadStart(s, 2, '0')| == 2 && AllDigits(PadStart(s, 2, '0'))
  {
    var p := PadStart(s, 2, '0');
    if |s| == 1 {
      assert p[1] == p[1..][0];
    }
  }

  /** Four digits, a dash, two digits, a dash and two digits form a calendar date. */
  lemma IsoAssembly(y: string, pm: string, pd: string)
    requires |y| == 2 && |pm| == 2 && |pd| == 2
    requires AllDigits(y) && AllDigits(pm) && AllDigits(pd)
    ensures IsIsoDate("20" + y + "-" + pm + "-" + pd)
  {
    var r := "20" + y + "-" + pm + "-" + pd;
    assert r == ['2', '0', y[0], y[1], '-', pm[0], pm[1], '-', pd[0], pd[1]];
  }

  /** A two-digit-year `M/D/YY` key with one- or two-digit month and day normalises to `20YY-MM-DD`. */
  lemma NormalizedIsIso(m: string, day: string, y: string, fallback: string -> string)
    requires 1 <= |m| <= 2 && 1 <= |day| <= 2 && |y| == 2
    requires AllDigits(m) && AllDigits(day) && AllDigits(y)
    ensures IsIsoDate(NormalizeDate(m + "/" + day + "/" + y, fallback))
  {
    NormalizeThreeParts(m, day, y, fallback);
    PadTwoDigits(m);
    PadTwoDigits(day);
    IsoAssembly(y, PadStart(m, 2, '0'), PadStart(day, 2, '0'));
  }

  /** The first day of a series as the timeline writes it. */
  lemma NormalizeExample(fallback: string -> string)
    ensures NormalizeDate("1/22/20", fallback) == "2020-01-22"
  {
    var key := "1" + "/" + "22" + "/" + "20";
    assert key == "1/22/20";
    NormalizeThreeParts("1", "22", "20", fallback);
    assert PadStart("1", 2, '0') == "01";
    PadKeepsLongParts("22");
    var r := "20" + "20" + "-" + "01" + "-" + "22";
    assert r == "2020-01-22";
    assert NormalizeDate(key, fallback) == r;
  }

  /** A key without slashes, such as one already in ISO form, goes to the fallback. */
  lemma SlashFreeKeyUsesFallback(d: string, fallback: string -> string)
    requires NoSlash(d)
    ensures NormalizeDate(d, fallback) == fallback(d)
  {
    SplitWithout(d, '/');
  }

  // ---------------------------------------------------------------------------
  // The points

  /** `table[key] || 0`: a missing count reads as zero. */
  function CountAt(table: map<string, int>, key: string): int {
    if key in table then table[key] else 0
  }

  /** The point of one date key; hospitalisations and positivity are not in the timeline. */
  function PointFor(t: Timeline, key: string, fallback: string -> string): (p: EpiPoint)
    ensures p.date == NormalizeDate(key, fallback)
    ensures p.cases == CountAt(t.cases, key) && p.deaths == CountAt(t.deaths, key)
    ensures p.recovered == CountAt(t.recovered, key)
    ensures p.hospitalized == 0 && p.positivityRate == 0
  {
    EpiPoint(NormalizeDate(key, fallback), CountAt(t.cases, key), CountAt(t.deaths, key),
             CountAt(t.recovered, key), 0, 0)
  }

  /**
   * `dates.map(...)`: one point per key, in key order, dated by the
   * normalised key, with the key's counts (zero where missing) and nothing
   * for hospitalisations or positivity.
   */
  function EpiPoints(t: Timeline, fallback: string -> string): (r: seq<EpiPoint>)
    ensures |r| == |t.dates|
    ensures forall i :: 0 <= i < |r| ==> r[i].date == NormalizeDate(t.dates[i], fallback)
    ensures forall i :: 0 <= i < |r| ==>
              r[i].cases == CountAt(t.cases, t.dates[i]) && r[i].deaths == CountAt(t.deaths, t.dates[i])
              && r[i].recovered == CountAt(t.recovered, t.dates[i])
    ensures forall i :: 0 <= i < |r| ==> r[i].hospitalized == 0 && r[i].positivityRate == 0
  {
    seq(|t.dates|, i requires 0 <= i < |t.dates| => PointFor(t, t.dates[i], fallback))
  }

  // ---------------------------------------------------------------------------
  // The sort: `localeCompare` on the date strings, modelled as code-unit order

  /** Lexicographic order on strings: a proper prefix comes first. */
  predicate DateLe(a: string, b: string)
    decreases |a|
  {
    a == [] || (b != [] && (a[0] < b[0] || (a[0] == b[0] && DateLe(a[1..], b[1..]))))
  }

  lemma {:induction false} DateLeTotal(a: string, b: string)
    ensures DateLe(a, b) || DateLe(b, a)
    decreases |a|
  {
    if a != [] && b != [] && a[0] == b[0] {
      DateLeTotal(a[1..], b[1..]);
    }
  }

  lemma {:induction false} DateLeTransitive(a: string, b: string, c: string)
    requires DateLe(a, b) && DateLe(b, c)
    ensures DateLe(a, c)
    decreases |a|
  {
    if a != [] && b != [] && c != [] && a[0] == b[0] && b[0] == c[0] {
      DateLeTransitive(a[1..], b[1..], c[1..]);
    }
  }

  lemma {:induction false} DateLeAntisymmetric(a: string, b: string)
    requires DateLe(a, b) && DateLe(b, a)
    ensures a == b
    decreases |a|
  {
    if a != [] {
      DateLeAntisymmetric(a[1..], b[1..]);
      assert a == [a[0]] + a[1..] && b == [b[0]] + b[1..];
    }
  }

  ghost predicate SortedByDate(s: seq<EpiPoint>) {
    forall i, j :: 0 <= i < j < |s| ==> DateLe(s[i].date, s[j].date)
  }

  /** Places `x` after every element whose date does not come after its own. */
  function InsertByDate(sorted: seq<EpiPoint>, x: EpiPoint): seq<EpiPoint>
  {
    if sorted == [] || DateLe(sorted[|sorted| - 1].date, x.date) then
      sorted + [x]
    else
      InsertByDate(sorted[..|sorted| - 1], x) + [sorted[|sorted| - 1]]
  }

  /** Inserting adds `x` and nothing else. */
  lemma {:induction false} InsertByDateSpec(sorted: seq<EpiPoint>, x: EpiPoint)
    ensures |InsertByDate(sorted, x)| == |sorted| + 1
    ensures multiset(InsertByDate(sorted, x)) == multiset(sorted) + multiset{x}
    decreases |sorted|
  {
    if sorted != [] && !DateLe(sorted[|sorted| - 1].date, x.date) {
      var init, last := sorted[..|sorted| - 1], sorted[|sorted| - 1];
      assert sorted == init + [last];
      InsertByDateSpec(init, x);
    }
  }

  /** Inserting keeps a sorted sequence sorted. */
  lemma {:induction false} InsertByDateSorted(sorted: seq<EpiPoint>, x: EpiPoint)
    requires SortedByDate(sorted)
    ensures SortedByDate(InsertByDate(sorted, x))
    decreases |sorted|
  {
    if sorted == [] {
    } else if DateLe(sorted[|sorted| - 1].date, x.date) {
      forall i | 0 <= i < |sorted| - 1 ensures DateLe(sorted[i].date, x.date) {
        DateLeTransitive(sorted[i].date, sorted[|sorted| - 1].date, x.date);
      }
    } else {
      var init, last := sorted[..|sorted| - 1], sorted[|sorted| - 1];
      InsertByDateSpec(init, x);
      InsertByDateSorted(init, x);
      DateLeTotal(last.date, x.date);
      var ins := InsertByDate(init, x);
      assert InsertByDate(sorted, x) == ins + [last];
      forall k | 0 <= k < |ins| ensures DateLe(ins[k].date, last.date) {
        assert ins[k] in multiset(init) + multiset{x};
      }
    }
  }

  /** The order a stable sort by date string leaves the points in. */
  function SortByDate(s: seq<EpiPoint>): seq<EpiPoint>
  {
    if s == [] then [] else InsertByDate(SortByDate(s[..|s| - 1]), s[|s| - 1])
  }

  /** The sorted series holds the same points, ascending by date string. */
  lemma {:induction false} SortByDateSpec(s: seq<EpiPoint>)
    ensures |SortByDate(s)| == |s|
    ensures multiset(SortByDate(s)) == multiset(s)
    ensures SortedByDate(SortByDate(s))
    decreases |s|
  {
    if s != [] {
      var init, last := s[..|s| - 1], s[|s| - 1];
      SortByDateSpec(init);
      InsertByDateSpec(SortByDate(init), last);
      InsertByDateSorted(SortByDate(init), last);
      assert s == init + [last];
      assert multiset(s) == multiset(init) + multiset{last};
    }
  }

  /** The points of `s` dated `d`, in their order in `s`. */
  function WithDate(s: seq<EpiPoint>, d: string): seq<EpiPoint>
  {
    if s == [] then []
    else WithDate(s[..|s| - 1], d) + (if s[|s| - 1].date == d then [s[|s| - 1]] else [])
  }

  lemma {:induction false} WithDateAppend(a: seq<EpiPoint>, b: seq<EpiPoint>, d: string)
    ensures WithDate(a + b, d) == WithDate(a, d) + WithDate(b, d)
    decreases |b|
  {
    if b != [] {
      assert (a + b)[..|a + b| - 1] == a + b[..|b| - 1];
      WithDateAppend(a, b[..|b| - 1], d);
    } else {
      assert a + b == a;
    }
  }

  /** Inserting puts `x` after every point already there with the same date. */
  lemma {:induction false} InsertByDateStable(sorted: seq<EpiPoint>, x: EpiPoint, d: string)
    ensures WithDate(InsertByDate(sorted, x), d) == WithDate(sorted, d) + (if x.date == d then [x] else [])
    decreases |sorted|
  {
    if sorted == [] || DateLe(sorted[|sorted| - 1].date, x.date) {
      WithDateAppend(sorted, [x], d);
    } else {
      var init, last := sorted[..|sorted| - 1], sorted[|sorted| - 1];
      DateLeTotal(x.date, x.date);
      assert last.date != x.date;
      assert InsertByDate(sorted, x) == InsertByDate(init, x) + [last];
      InsertByDateStable(init, x, d);
      WithDateAppend(InsertByDate(init, x), [last], d);
      assert sorted == init + [last];
      WithDateAppend(init, [last], d);
    }
  }

  /**
   * The sort is stable: keys that normalise to the same date string, such as
   * `1/2/20` and `01/02/20`, keep their key order.
   */
  lemma {:induction false} SortByDateStable(s: seq<EpiPoint>, d: string)
    ensures WithDate(SortByDate(s), d) == WithDate(s, d)
  {
    if s != [] {
      SortByDateStable(s[..|s| - 1], d);
      InsertByDateStable(SortByDate(s[..|s| - 1]), s[|s| - 1], d);
    }
  }

  /** Sorting one more element inserts it into the sorted prefix. */
  lemma SortByDateStep(o: seq<EpiPoint>, i: nat)
    requires i < |o|
    ensures SortByDate(o[..i + 1]) == InsertByDate(SortByDate(o[..i]), o[i])
  {
    assert o[..i + 1][..i] == o[..i];
  }

  /**
   * Where the insertion lands: after `s[..j]` when the element before `j`
   * does not sort after `x` and every element from `j` on does.
   */
  lemma {:induction false} InsertAt(s: seq<EpiPoint>, x: EpiPoint, j: nat)
    requires j <= |s|
    requires j == 0 || DateLe(s[j - 1].date, x.date)
    requires forall k :: j <= k < |s| ==> !DateLe(s[k].date, x.date)
    ensures InsertByDate(s, x) == s[..j] + [x] + s[j..]
    decreases |s|
  {
    if j == |s| {
      assert s[..j] == s && s[j..] == [];
    } else {
      var init, last := s[..|s| - 1], s[|s| - 1];
      assert !DateLe(last.date, x.date);
      assert j > 0 ==> init[j - 1] == s[j - 1];
      InsertAt(init, x, j);
      assert init[..j] == s[..j];
      assert s[j..] == init[j..] + [last];
    }
  }

  /** A sequence that holds `s[..j]`, then `x`, then `s[j..]`, element by element. */
  lemma Inserted(t: seq<EpiPoint>, s: seq<EpiPoint>, x: EpiPoint, j: nat)
    requires j <= |s| && |t| == |s| + 1
    requires forall k :: 0 <= k < j ==> t[k] == s[k]
    requires t[j] == x
    requires forall k :: j < k < |t| ==> t[k] == s[k - 1]
    ensures t == s[..j] + [x] + s[j..]
  {
    var r := s[..j] + [x] + s[j..];
    forall k | 0 <= k < |t| ensures t[k] == r[k] {
      if k < j {
        assert r[k] == s[..j][k];
      } else if k > j {
        assert r[k] == s[j..][k - j - 1];
      }
    }
  }

  /** One insertion step: `a[i]` moves left past the later dates of the sorted prefix `a[..i]`. */
  method InsertInPlace(a: array<EpiPoint>, i: nat)
    requires i < a.Length
    modifies a
    ensures a[..i + 1] == InsertByDate(old(a[..i]), old(a[i]))
    ensures forall k :: i < k < a.Length ==> a[k] == old(a[k])
  {
    ghost var s := a[..i];
    var x := a[i];
    var j := ShiftLater(a, i, x);
    a[j] := x;
    InsertAt(s, x, j);
    Inserted(a[..i + 1], s, x, j);
  }

  /**
   * The inner loop of the insertion: moves the elements before `i` that sort
   * after `x` one place up, and returns the gap left where `x` belongs.
   */
  method ShiftLater(a: array<EpiPoint>, i: nat, x: EpiPoint) returns (j: nat)
    requires i < a.Length
    modifies a
    ensures j <= i
    ensures forall k :: 0 <= k < j ==> a[k] == old(a[k])
    ensures forall k :: j < k <= i ==> a[k] == old(a[k - 1])
    ensures forall k :: i < k < a.Length ==> a[k] == old(a[k])
    ensures j == 0 || DateLe(old(a[j - 1]).date, x.date)
    ensures forall k :: j <= k < i ==> !DateLe(old(a[k]).date, x.date)
  {
    j := i;
    while j > 0 && !DateLe(a[j - 1].date, x.date)
      invariant j <= i
      invariant forall k :: 0 <= k < j ==> a[k] == old(a[k])
      invariant forall k :: j < k <= i ==> a[k] == old(a[k - 1])
      invariant forall k :: i < k < a.Length ==> a[k] == old(a[k])
      invariant forall k :: j <= k < i ==> !DateLe(old(a[k]).date, x.date)
    {
      a[j] := a[j - 1];
      j := j - 1;
    }
  }


  /** `epiData.sort(...)`: an insertion sort in place. */
  method SortInPlace(a: array<EpiPoint>)
    modifies a
    ensures a[..] == SortByDate(old(a[..]))
  {
    ghost var o := a[..];
    var i := 0;
    while i < a.Length
      invariant 0 <= i <= a.Length
      invariant a[..i] == SortByDate(o[..i])
      invariant forall k :: i <= k < a.Length ==> a[k] == o[k]
    {
      SortByDateStep(o, i);
      InsertInPlace(a, i);
      i := i + 1;
    }
    assert a[..] == a[..a.Length] && o == o[..a.Length];
  }


  /** The handler's series: the points of the timeline, sorted in place by date. */
  method BuildEpiData(t: Timeline, fallback: string -> string) returns (a: array<EpiPoint>)
    ensures fresh(a)
    ensures a[..] == SortByDate(EpiPoints(t, fallback))
  {
    var points := EpiPoints(t, fallback);
    a := new EpiPoint[|points|](i requires 0 <= i < |points| => points[i]);
    assert a[..] == points;
    SortInPlace(a);
  }

  /**
   * What the handler returns: one point per key, every point made from some
   * key, ascending by date string, with the two unavailable columns zero.
   */
  lemma EpiDataSpec(t: Timeline, fallback: string -> string)
    ensures var r := SortByDate(EpiPoints(t, fallback));
            && |r| == |t.dates|
            && multiset(r) == multiset(EpiPoints(t, fallback))
            && SortedByDate(r)
            && forall p :: p in r ==> p.hospitalized == 0 && p.positivityRate == 0
                                      && exists i :: 0 <= i < |t.dates| && p == PointFor(t, t.dates[i], fallback)
  {
    var pts := EpiPoints(t, fallback);
    SortByDateSpec(pts);
    forall p | p in SortByDate(pts)
      ensures exists i :: 0 <= i < |t.dates| && p == PointFor(t, t.dates[i], fallback)
    {
      assert p in multiset(pts);
      var i :| 0 <= i < |pts| && pts[i] == p;
    }
  }

  /** A key of the cases table keeps its count; a date missing from the deaths table gets zero deaths. */
  lemma CountsDefaultToZero(t: Timeline, key: string, fallback: string -> string)
    ensures key in t.cases ==> PointFor(t, key, fallback).cases == t.cases[key]
    ensures key !in t.deaths ==> PointFor(t, key, fallback).deaths == 0
    ensures key !in t.recovered ==> PointFor(t, key, fallback).recovered == 0
  {
  }
}
