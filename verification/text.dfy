/** JavaScript string operations used by the parsers and classifiers, on `string` = `seq<char>`. */
module Text {

  /** ECMAScript line terminators: the characters `.` in a regular expression does not match. */
  predicate IsLineTerminator(c: char) {
    c == '\n' || c == '\r' || c == '\U{2028}' || c == '\U{2029}'
  }

  /** ECMAScript white space and line terminators: what `trim` removes and `\s` matches. */
  predicate IsSpace(c: char) {
    || IsLineTerminator(c)
    || c == ' ' || c == '\t' || c == '\U{B}' || c == '\U{C}'
    || c == '\U{A0}' || c == '\U{FEFF}' || c == '\U{1680}'
    || ('\U{2000}' <= c <= '\U{200A}')
    || c == '\U{202F}' || c == '\U{205F}' || c == '\U{3000}'
  }

  /** `\d` */
  predicate IsDigit(c: char) { '0' <= c <= '9' }

  /** `[A-Za-z]` */
  predicate IsAsciiLetter(c: char) { ('a' <= c <= 'z') || ('A' <= c <= 'Z') }

  /** `toLowerCase` on one character, for ASCII text. */
  function Lower(c: char): char {
    if 'A' <= c <= 'Z' then (c as int + 32) as char else c
  }

  /** `toUpperCase` on one character, for ASCII text. */
  function Upper(c: char): char {
    if 'a' <= c <= 'z' then (c as int - 32) as char else c
  }

  /**
   * `toLowerCase` on ASCII text: no capital letter is left, each capital
   * becomes the small letter 32 code units above it, and every other
   * character stays where it was.
   */
  function ToLower(s: string): (r: string)
    ensures |r| == |s|
    ensures forall i :: 0 <= i < |r| ==> !('A' <= r[i] <= 'Z')
    ensures forall i :: 0 <= i < |s| && 'A' <= s[i] <= 'Z' ==> r[i] as int == s[i] as int + 32
    ensures forall i :: 0 <= i < |s| && !('A' <= s[i] <= 'Z') ==> r[i] == s[i]
  {
    seq(|s|, i requires 0 <= i < |s| => Lower(s[i]))
  }

  /** `toUpperCase` on ASCII text: the mirror image of `ToLower`. */
  function ToUpper(s: string): (r: string)
    ensures |r| == |s|
    ensures forall i :: 0 <= i < |r| ==> !('a' <= r[i] <= 'z')
    ensures forall i :: 0 <= i < |s| && 'a' <= s[i] <= 'z' ==> r[i] as int == s[i] as int - 32
    ensures forall i :: 0 <= i < |s| && !('a' <= s[i] <= 'z') ==> r[i] == s[i]
  {
    seq(|s|, i requires 0 <= i < |s| => Upper(s[i]))
  }

  /** Lower-casing twice is lower-casing once. */
  lemma ToLowerIdempotent(s: string)
    ensures ToLower(ToLower(s)) == ToLower(s)
  {
    assert forall i :: 0 <= i < |s| ==> Lower(Lower(s[i])) == Lower(s[i]);
  }

  lemma ToLowerAppend(a: string, b: string)
    ensures ToLower(a + b) == ToLower(a) + ToLower(b)
  {
  }

  // ---------------------------------------------------------------------------
  // Substrings

  /** `p` occurs in `s` starting at index `k`. */
  predicate OccursAt(s: string, p: string, k: int) {
    0 <= k && k + |p| <= |s| && s[k..k + |p|] == p
  }

  /** `s.includes(p)` */
  predicate Contains(s: string, p: string) {
    exists k | 0 <= k <= |s| - |p| :: OccursAt(s, p, k)
  }

  /** `s.startsWith(p)` */
  predicate StartsWith(s: string, p: string) {
    OccursAt(s, p, 0)
  }

  /** Character-by-character comparison of `p[j..]` with `s[k + j..]`. */
  predicate MatchesFrom(s: string, p: string, k: nat, j: nat)
    decreases |p| - j
  {
    j >= |p| || (k + j < |s| && s[k + j] == p[j] && MatchesFrom(s, p, k, j + 1))
  }

  /** A left-to-right search for `p` in `s` starting at `k`, position by position. */
  predicate ScanFrom(s: string, p: string, k: nat)
    decreases |s| - k
  {
    k + |p| <= |s| && (MatchesFrom(s, p, k, 0) || ScanFrom(s, p, k + 1))
  }

  lemma {:induction false} MatchesFromIff(s: string, p: string, k: nat, j: nat)
    requires j <= |p| && k + |p| <= |s|
    ensures MatchesFrom(s, p, k, j) <==> s[k + j..k + |p|] == p[j..]
    decreases |p| - j
  {
    if j < |p| {
      MatchesFromIff(s, p, k, j + 1);
      var l, r := s[k + j..k + |p|], p[j..];
      assert l[0] == s[k + j] && r[0] == p[j];
      assert l[1..] == s[k + j + 1..k + |p|] && r[1..] == p[j + 1..];
      if MatchesFrom(s, p, k, j) {
        assert l == [l[0]] + l[1..] && r == [r[0]] + r[1..];
      }
    }
  }

  /** The positional search decides `Contains` for matches at or after `k`. */
  lemma {:induction false} ScanFromIff(s: string, p: string, k: nat)
    ensures ScanFrom(s, p, k) <==> exists i :: k <= i && OccursAt(s, p, i)
    decreases |s| - k
  {
    if k + |p| <= |s| {
      MatchesFromIff(s, p, k, 0);
      assert p[0..] == p;
      ScanFromIff(s, p, k + 1);
      if ScanFrom(s, p, k) {
        if MatchesFrom(s, p, k, 0) {
          assert OccursAt(s, p, k);
        } else {
          var i :| k + 1 <= i && OccursAt(s, p, i);
        }
      }
      if exists i :: k <= i && OccursAt(s, p, i) {
        var i :| k <= i && OccursAt(s, p, i);
        if i == k {
          assert MatchesFrom(s, p, k, 0);
        } else {
          assert k + 1 <= i && OccursAt(s, p, i);
        }
      }
    } else {
      forall i | k <= i ensures !OccursAt(s, p, i) { }
    }
  }

  lemma ContainsIffScan(s: string, p: string)
    ensures Contains(s, p) <==> ScanFrom(s, p, 0)
  {
    ScanFromIff(s, p, 0);
  }

  /** Case-insensitive positional match: `Lower` applied to `s` on the fly. */
  predicate MatchesLowerFrom(s: string, p: string, k: nat, j: nat)
    decreases |p| - j
  {
    j >= |p| || (k + j < |s| && Lower(s[k + j]) == p[j] && MatchesLowerFrom(s, p, k, j + 1))
  }

  predicate ScanLowerFrom(s: string, p: string, k: nat)
    decreases |s| - k
  {
    k + |p| <= |s| && (MatchesLowerFrom(s, p, k, 0) || ScanLowerFrom(s, p, k + 1))
  }

  lemma {:induction false} MatchesLowerAgree(s: string, p: string, k: nat, j: nat)
    ensures MatchesLowerFrom(s, p, k, j) == MatchesFrom(ToLower(s), p, k, j)
    decreases |p| - j
  {
    if j < |p| {
      MatchesLowerAgree(s, p, k, j + 1);
    }
  }

  lemma {:induction false} ScanLowerAgree(s: string, p: string, k: nat)
    ensures ScanLowerFrom(s, p, k) == ScanFrom(ToLower(s), p, k)
    decreases |s| - k
  {
    MatchesLowerAgree(s, p, k, 0);
    if k + |p| <= |s| {
      ScanLowerAgree(s, p, k + 1);
    }
  }

  /** `s.toLowerCase().includes(p)` decided position by position on `s` itself. */
  lemma ContainsLowerIffScan(s: string, p: string)
    ensures Contains(ToLower(s), p) <==> ScanLowerFrom(s, p, 0)
  {
    ContainsIffScan(ToLower(s), p);
    ScanLowerAgree(s, p, 0);
  }

  /** An occurrence in a concatenation lies in one part, or covers the seam. */
  lemma ContainsSplit(a: string, b: string, p: string)
    requires Contains(a + b, p)
    ensures Contains(a, p) || Contains(b, p) || exists k :: OccursAt(a + b, p, k) && k < |a| < k + |p|
  {
    var k :| 0 <= k <= |a + b| - |p| && OccursAt(a + b, p, k);
    assert 0 <= k && k + |p| <= |a + b| && (a + b)[k..k + |p|] == p;
    if k + |p| <= |a| {
      assert (a + b)[k..k + |p|] == a[k..k + |p|];
      assert OccursAt(a, p, k);
    } else if |a| <= k {
      assert (a + b)[k..k + |p|] == b[k - |a|..k - |a| + |p|];
      assert OccursAt(b, p, k - |a|);
    }
  }

  /**
   * A separator none of whose characters occurs in `p` cannot be crossed by an
   * occurrence of `p`: every occurrence in `a + sep + b` lies in `a` or in `b`.
   */
  lemma ContainsAcrossSeparator(a: string, sep: string, b: string, p: string)
    requires |sep| > 0
    requires forall i, j :: 0 <= i < |sep| && 0 <= j < |p| ==> sep[i] != p[j]
    requires Contains(a + sep + b, p)
    ensures Contains(a, p) || Contains(b, p)
  {
    var s := a + sep + b;
    if |p| == 0 {
      assert OccursAt(a, p, 0);
      return;
    }
    var k :| 0 <= k <= |s| - |p| && OccursAt(s, p, k);
    assert 0 <= k && k + |p| <= |s| && s[k..k + |p|] == p;
    if k + |p| <= |a| {
      assert s[k..k + |p|] == a[k..k + |p|];
      assert OccursAt(a, p, k);
    } else if |a| + |sep| <= k {
      assert s[k..k + |p|] == b[k - |a| - |sep|..k - |a| - |sep| + |p|];
      assert OccursAt(b, p, k - |a| - |sep|);
    } else {
      SeamCharacter(a, sep, b, p, k);
      assert false;
    }
  }

  /** An occurrence that overlaps the separator shares a character with it. */
  lemma SeamCharacter(a: string, sep: string, b: string, p: string, k: int)
    requires OccursAt(a + sep + b, p, k)
    requires k < |a| + |sep| && |a| < k + |p| && |sep| > 0 && |p| > 0
    ensures exists i, j :: 0 <= i < |sep| && 0 <= j < |p| && sep[i] == p[j]
  {
    var s := a + sep + b;
    var m := if k < |a| then |a| else k;
    assert s[k..k + |p|][m - k] == s[m];
    assert s[m] == sep[m - |a|];
    assert sep[m - |a|] == p[m - k];
  }

  /**
   * The index of the first of `words[from..]` that occurs in `text`, if any:
   * a first-match search over a list, as a loop with an early return or a
   * chain of `||` tests evaluates it.
   */
  function FirstOccurring(text: string, words: seq<string>, from: nat): (r: Option<nat>)
    ensures r.Some? ==> from <= r.value < |words| && Contains(text, words[r.value])
    ensures r.Some? ==> forall j :: from <= j < r.value ==> !Contains(text, words[j])
    ensures r.None? ==> forall j :: from <= j < |words| ==> !Contains(text, words[j])
    decreases |words| - from
  {
    if from >= |words| then None
    else if Contains(text, words[from]) then Some(from)
    else FirstOccurring(text, words, from + 1)
  }

  /** Every character of `s` is matched by a regular expression's `.`: `s` has no line terminator. */
  predicate LineFree(s: string) {
    forall i :: 0 <= i < |s| ==> !IsLineTerminator(s[i])
  }

  /** Text on one line, joined to text on one line, stays on one line. */
  lemma LineFreeAppend(a: string, b: string)
    requires LineFree(a) && LineFree(b)
    ensures LineFree(a + b)
  {
    forall i | 0 <= i < |a + b| ensures !IsLineTerminator((a + b)[i]) {
      if i >= |a| { assert (a + b)[i] == b[i - |a|]; }
    }
  }

  /** The first index at or after `from` where `p` occurs, as `indexOf` / a regular expression's leftmost match. */
  function IndexOf(s: string, p: string, from: nat): (r: Option<nat>)
    ensures r.Some? ==> from <= r.value && OccursAt(s, p, r.value)
    ensures r.Some? ==> forall k :: from <= k < r.value ==> !OccursAt(s, p, k)
    ensures r.None? ==> forall k :: from <= k ==> !OccursAt(s, p, k)
    decreases |s| - from
  {
    if from + |p| > |s| then None
    else if s[from..from + |p|] == p then Some(from)
    else IndexOf(s, p, from + 1)
  }

  // ---------------------------------------------------------------------------
  // Trimming, slicing, joining, splitting

  /** `s.trimStart()`: drops the white space at the front. */
  function TrimStart(s: string): string
  {
    if |s| > 0 && IsSpace(s[0]) then TrimStart(s[1..]) else s
  }

  /** `s.trimEnd()`: drops the white space at the back. */
  function TrimEnd(s: string): string
  {
    if |s| > 0 && IsSpace(s[|s| - 1]) then TrimEnd(s[..|s| - 1]) else s
  }

  /** What `TrimStart` keeps is a suffix, not starting with white space, and what it drops is white space. */
  lemma {:induction false} TrimStartSpec(s: string)
    ensures var r := TrimStart(s);
            && |r| <= |s| && r == s[|s| - |r|..]
            && (r == [] || !IsSpace(r[0]))
            && forall i :: 0 <= i < |s| - |r| ==> IsSpace(s[i])
    decreases |s|
  {
    if |s| > 0 && IsSpace(s[0]) {
      TrimStartSpec(s[1..]);
      var r := TrimStart(s);
      assert r == TrimStart(s[1..]);
      assert s[1..][|s| - 1 - |r|..] == s[|s| - |r|..];
      forall i | 0 <= i < |s| - |r| ensures IsSpace(s[i]) {
        if i > 0 {
          assert s[i] == s[1..][i - 1];
        }
      }
    }
  }

  /** What `TrimEnd` keeps is a prefix, not ending with white space, and what it drops is white space. */
  lemma {:induction false} TrimEndSpec(s: string)
    ensures var r := TrimEnd(s);
            && |r| <= |s| && r == s[..|r|]
            && (r == [] || !IsSpace(r[|r| - 1]))
            && forall i :: |r| <= i < |s| ==> IsSpace(s[i])
    decreases |s|
  {
    if |s| > 0 && IsSpace(s[|s| - 1]) {
      TrimEndSpec(s[..|s| - 1]);
      var r := TrimEnd(s);
      assert r == TrimEnd(s[..|s| - 1]);
      assert s[..|s| - 1][..|r|] == s[..|r|];
      forall i | |r| <= i < |s| ensures IsSpace(s[i]) {
        if i < |s| - 1 {
          assert s[i] == s[..|s| - 1][i];
        }
      }
    }
  }

  /**
   * `s.trim()`: the longest slice of `s` that neither starts nor ends with white
   * space; everything cut off on either side is white space.
   */
  function Trim(s: string): (r: string)
    ensures exists i :: TrimmedAt(s, r, i)
    ensures r == [] || (!IsSpace(r[0]) && !IsSpace(r[|r| - 1]))
  {
    var e := TrimEnd(s);
    var r := TrimStart(e);
    TrimEndSpec(s);
    TrimStartSpec(e);
    var i := |e| - |r|;
    assert r == s[i..i + |r|];
    forall k | 0 <= k < i ensures IsSpace(s[k]) {
      assert IsSpace(e[k]) && e[k] == s[k];
    }
    assert TrimmedAt(s, r, i);
    r
  }

  /** `r` is the slice of `s` at `i` and everything around it is white space. */
  predicate TrimmedAt(s: string, r: string, i: int) {
    && 0 <= i && i + |r| <= |s| && r == s[i..i + |r|]
    && (forall k :: 0 <= k < i ==> IsSpace(s[k]))
    && (forall k :: i + |r| <= k < |s| ==> IsSpace(s[k]))
  }

  /** A string with no white space at either end is its own trim. */
  lemma TrimOfTrimmed(s: string)
    requires s == [] || (!IsSpace(s[0]) && !IsSpace(s[|s| - 1]))
    ensures Trim(s) == s
  {
  }

  /** `s.substring(0, n)` or `a.slice(0, n)` for `n >= 0`: the first `n` elements, or all of them. */
  function Take<T>(s: seq<T>, n: nat): (r: seq<T>)
    ensures |r| <= n && |r| <= |s|
    ensures |s| <= n ==> r == s
    ensures n <= |s| ==> |r| == n
    ensures r == s[..|r|]
  {
    if |s| <= n then s else s[..n]
  }

  /** `parts.join(sep)` */
  function Join(parts: seq<string>, sep: string): string
  {
    if |parts| == 0 then ""
    else if |parts| == 1 then parts[0]
    else parts[0] + sep + Join(parts[1..], sep)
  }

  /** `s.split(sep)` for a one-character separator: the pieces between separators. */
  function Split(s: string, sep: char): (r: seq<string>)
    ensures |r| >= 1
    ensures forall i, k :: 0 <= i < |r| && 0 <= k < |r[i]| ==> r[i][k] != sep
    decreases |s|
  {
    match IndexOf(s, [sep], 0)
    case None =>
      assert forall j :: 0 <= j < |s| ==> s[j] != sep by {
        forall j | 0 <= j < |s| ensures s[j] != sep {
          assert !OccursAt(s, [sep], j);
          assert s[j..j + 1] == [s[j]];
        }
      }
      [s]
    case Some(k) =>
      assert forall j :: 0 <= j < k ==> s[j] != sep by {
        forall j | 0 <= j < k ensures s[j] != sep {
          assert !OccursAt(s, [sep], j);
          assert s[j..j + 1] == [s[j]];
        }
      }
      [s[..k]] + Split(s[k + 1..], sep)
  }

  /** Joining the pieces of a split with the separator gives the string back. */
  lemma {:induction false} JoinSplit(s: string, sep: char)
    ensures Join(Split(s, sep), [sep]) == s
    decreases |s|
  {
    match IndexOf(s, [sep], 0)
    case None =>
    case Some(k) =>
      var rest := Split(s[k + 1..], sep);
      JoinSplit(s[k + 1..], sep);
      assert Split(s, sep) == [s[..k]] + rest;
      assert s[k..k + 1] == [sep];
      assert s == s[..k] + [sep] + s[k + 1..];
  }

  /** A string without the separator splits into itself alone. */
  lemma SplitWithout(s: string, sep: char)
    requires forall j :: 0 <= j < |s| ==> s[j] != sep
    ensures Split(s, sep) == [s]
  {
    forall k | 0 <= k < |s| ensures !OccursAt(s, [sep], k) {
      assert s[k..k + 1] == [s[k]];
    }
  }

  /** Splitting at the first separator: the piece before it, then the split of the rest. */
  lemma SplitAt(a: string, rest: string, sep: char)
    requires forall j :: 0 <= j < |a| ==> a[j] != sep
    ensures Split(a + [sep] + rest, sep) == [a] + Split(rest, sep)
  {
    var s := a + [sep] + rest;
    forall k | 0 <= k < |a| ensures !OccursAt(s, [sep], k) {
      assert s[k..k + 1] == [a[k]];
    }
    assert s[|a|..|a| + 1] == [sep];
    assert OccursAt(s, [sep], |a|);
    assert s[..|a|] == a && s[|a| + 1..] == rest;
  }

  /** `s.padStart(n, c)` with a one-character pad: `c` repeated in front up to length `n`. */
  function PadStart(s: string, n: nat, c: char): (r: string)
    ensures |r| == if |s| >= n then |s| else n
    ensures r[|r| - |s|..] == s
    ensures forall i :: 0 <= i < |r| - |s| ==> r[i] == c
  {
    if |s| >= n then s else seq(n - |s|, _ => c) + s
  }

  /**
   * Decimal digits of a natural number, as template literals print an
   * integer: digits only, spelling `n`, with no leading zero.
   */
  function NatToString(n: nat): (r: string)
    ensures |r| >= 1
    ensures forall i :: 0 <= i < |r| ==> IsDigit(r[i])
    ensures DigitsValue(r) == n
    ensures |r| == 1 || r[0] != '0'
    ensures r[0] == '0' ==> n == 0
  {
    if n < 10 then [DigitChar(n)]
    else
      var r := NatToString(n / 10) + [DigitChar(n % 10)];
      assert r[..|r| - 1] == NatToString(n / 10);
      r
  }

  function DigitChar(d: nat): (c: char)
    requires d < 10
    ensures IsDigit(c) && c as int - '0' as int == d
  {
    ('0' as int + d) as char
  }

  /** The number a string of decimal digits spells, most significant digit first. */
  function DigitsValue(s: string): int
  {
    if s == [] then 0 else 10 * DigitsValue(s[..|s| - 1]) + (s[|s| - 1] as int - '0' as int)
  }

  lemma AppendAssociative<T>(x: seq<T>, y: seq<T>, z: seq<T>)
    ensures (x + y) + z == x + (y + z)
  {
  }

  /** Removing one copy of the same element from two permutations leaves permutations. */
  lemma RemoveMatching<T>(a: seq<T>, i: nat, b: seq<T>, j: nat)
    requires i < |a| && j < |b| && a[i] == b[j] && multiset(a) == multiset(b)
    ensures multiset(a[..i] + a[i + 1..]) == multiset(b[..j] + b[j + 1..])
  {
    assert a == a[..i] + [a[i]] + a[i + 1..];
    assert b == b[..j] + [b[j]] + b[j + 1..];
    assert multiset(a[..i] + a[i + 1..]) == multiset(a) - multiset{a[i]};
    assert multiset(b[..j] + b[j + 1..]) == multiset(b) - multiset{b[j]};
  }

  /** Permutations with the same first element have permuted tails. */
  lemma SameTails<T>(a: seq<T>, b: seq<T>)
    requires multiset(a) == multiset(b) && a != [] && b != [] && a[0] == b[0]
    ensures multiset(a[1..]) == multiset(b[1..])
  {
    assert a == [a[0]] + a[1..];
    assert b == [b[0]] + b[1..];
    assert multiset(a[1..]) == multiset(a) - multiset{a[0]};
    assert multiset(b[1..]) == multiset(b) - multiset{b[0]};
  }

  datatype Option<+T> = None | Some(value: T)
}
