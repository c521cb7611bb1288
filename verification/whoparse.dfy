/**
 * The WHO Disease Outbreak News parser: a line-oriented state machine over a
 * markdown page. An item starts at a line that is exactly a `[title](url)`
 * link whose next non-blank line holds a date; the lines after it form the
 * summary until a link line or a navigation line ("Read more", "See all").
 */
module WhoParse {

  import opened Text

  datatype ParsedNewsItem = ParsedNewsItem(
    title: string,
    summary: string,
    publishedAt: string,
    source: string,
    url: string)

  const WhoSource: string := "WHO Disease Outbreak News"
  const WhoOrigin: string := "https://www.who.int"
  const SummaryLimit: nat := 500

  // ---------------------------------------------------------------------------
  // The link pattern: `^\[(.*?)\]\((.*?)\)$` on a trimmed line

  /** `line` reads `[t](u)` with the `](` at index `j`, and `.` matches all of `t` and `u`. */
  predicate LinkSplitAt(line: string, j: nat) {
    && 1 <= j && j + 3 <= |line|
    && line[0] == '[' && line[j] == ']' && line[j + 1] == '(' && line[|line| - 1] == ')'
    && LineFree(line[1..j]) && LineFree(line[j + 2..|line| - 1])
  }

  /** The first `](` position at or after `j` that gives a match: the lazy title. */
  function FirstLinkSplit(line: string, j: nat): (r: Option<nat>)
    ensures r.Some? ==> j <= r.value && LinkSplitAt(line, r.value)
    ensures r.Some? ==> forall k :: j <= k < r.value ==> !LinkSplitAt(line, k)
    ensures r.None? ==> forall k :: j <= k ==> !LinkSplitAt(line, k)
    decreases |line| - j
  {
    if j + 3 > |line| then None
    else if LinkSplitAt(line, j) then Some(j)
    else FirstLinkSplit(line, j + 1)
  }

  datatype Link = Link(title: string, url: string)

  /** The two capture groups of the link pattern, when the whole line matches it. */
  function LinkMatch(line: string): (r: Option<Link>)
  {
    match FirstLinkSplit(line, 1)
    case None => None
    case Some(j) => Some(Link(line[1..j], line[j + 2..|line| - 1]))
  }

  /**
   * The link pattern matches exactly the lines `[t](u)` with no line
   * terminator in `t` or `u`; the title captured is the shortest one that
   * lets the rest of the line match.
   */
  lemma LinkMatchSpec(line: string)
    ensures LinkMatch(line).Some? <==> exists j :: LinkSplitAt(line, j)
    ensures LinkMatch(line).Some? ==>
              var r := LinkMatch(line).value;
              && line == "[" + r.title + "](" + r.url + ")"
              && LineFree(r.title) && LineFree(r.url)
              && forall k: nat :: k <= |r.title| ==> !LinkSplitAt(line, k)
  {
    match FirstLinkSplit(line, 1)
    case None =>
    case Some(j) =>
      var t, u := line[1..j], line[j + 2..|line| - 1];
      assert line == [line[0]] + t + [line[j], line[j + 1]] + u + [line[|line| - 1]];
  }

  // ---------------------------------------------------------------------------
  // The date pattern: `(\d{1,2}\s+[A-Za-z]+\s+\d{4})`, leftmost match

  /** The length of the longest run of white space in `s` from index `i`. */
  function SpaceRun(s: string, i: nat): nat
    decreases |s| - i
  {
    if i < |s| && IsSpace(s[i]) then 1 + SpaceRun(s, i + 1) else 0
  }

  /** The length of the longest run of ASCII letters in `s` from index `i`. */
  function LetterRun(s: string, i: nat): nat
    decreases |s| - i
  {
    if i < |s| && IsAsciiLetter(s[i]) then 1 + LetterRun(s, i + 1) else 0
  }

  /** The parts of a date match: where it starts and the lengths of its first four pieces. */
  datatype DateSpan = DateSpan(start: nat, day: nat, gap1: nat, month: nat, gap2: nat)

  function SpanEnd(d: DateSpan): nat {
    d.start + d.day + d.gap1 + d.month + d.gap2 + 4
  }

  predicate AllDigits(s: string, i: nat, j: nat) {
    j <= |s| && forall k :: i <= k < j ==> IsDigit(s[k])
  }

  predicate AllSpaces(s: string, i: nat, j: nat) {
    j <= |s| && forall k :: i <= k < j ==> IsSpace(s[k])
  }

  predicate AllLetters(s: string, i: nat, j: nat) {
    j <= |s| && forall k :: i <= k < j ==> IsAsciiLetter(s[k])
  }

  /** `d` describes a match of the date pattern in `s`: 1-2 digits, spaces, letters, spaces, 4 digits. */
  predicate DateShaped(s: string, d: DateSpan) {
    var a := d.start + d.day;
    var b := a + d.gap1;
    var c := b + d.month;
    var e := c + d.gap2;
    && 1 <= d.day <= 2 && d.gap1 >= 1 && d.month >= 1 && d.gap2 >= 1
    && AllDigits(s, d.start, a) && AllSpaces(s, a, b) && AllLetters(s, b, c) && AllSpaces(s, c, e)
    && AllDigits(s, e, e + 4)
  }

  /**
   * The only candidate match at `p`: each greedy piece takes the longest run
   * it can, since the piece after it needs a different kind of character.
   */
  function GreedySpan(s: string, p: nat): DateSpan {
    var day := if p + 1 < |s| && IsDigit(s[p + 1]) then 2 else 1;
    var gap1 := SpaceRun(s, p + day);
    var month := LetterRun(s, p + day + gap1);
    var gap2 := SpaceRun(s, p + day + gap1 + month);
    DateSpan(p, day, gap1, month, gap2)
  }

  /** The match of the date pattern starting at `p`, if any. */
  function DateMatchAt(s: string, p: nat): (r: Option<DateSpan>)
    ensures r.Some? ==> r.value.start == p && DateShaped(s, r.value)
    ensures r.None? ==> forall d: DateSpan :: d.start == p ==> !DateShaped(s, d)
  {
    var d := GreedySpan(s, p);
    if DateShaped(s, d) then Some(d)
    else
      assert forall d': DateSpan :: d'.start == p ==> !DateShaped(s, d') by {
        forall d': DateSpan | d'.start == p && DateShaped(s, d') ensures false {
          ShapedIsGreedy(s, d');
          assert false;
        }
      }
      None
  }

  /** A run of white space that stops before a non-space character is the longest one. */
  lemma {:induction false} SpaceRunIs(s: string, i: nat, n: nat)
    requires AllSpaces(s, i, i + n) && i + n < |s| && !IsSpace(s[i + n])
    ensures SpaceRun(s, i) == n
    decreases n
  {
    if n > 0 {
      SpaceRunIs(s, i + 1, n - 1);
    }
  }

  /** A run of letters that stops before a non-letter is the longest one. */
  lemma {:induction false} LetterRunIs(s: string, i: nat, n: nat)
    requires AllLetters(s, i, i + n) && i + n < |s| && !IsAsciiLetter(s[i + n])
    ensures LetterRun(s, i) == n
    decreases n
  {
    if n > 0 {
      LetterRunIs(s, i + 1, n - 1);
    }
  }

  /** The day digits of a match: two when two digits stand there, else one. */
  lemma DayIsGreedy(s: string, d: DateSpan)
    requires DateShaped(s, d)
    ensures d.day == if d.start + 1 < |s| && IsDigit(s[d.start + 1]) then 2 else 1
  {
    var a := d.start + d.day;
    assert AllSpaces(s, a, a + d.gap1);
    assert IsSpace(s[a]);
  }

  lemma Gap1IsGreedy(s: string, d: DateSpan)
    requires DateShaped(s, d)
    ensures d.gap1 == SpaceRun(s, d.start + d.day)
  {
    var a := d.start + d.day;
    var b := a + d.gap1;
    assert AllLetters(s, b, b + d.month);
    assert IsAsciiLetter(s[b]);
    SpaceRunIs(s, a, d.gap1);
  }

  lemma MonthIsGreedy(s: string, d: DateSpan)
    requires DateShaped(s, d)
    ensures d.month == LetterRun(s, d.start + d.day + d.gap1)
  {
    var b := d.start + d.day + d.gap1;
    var c := b + d.month;
    assert AllSpaces(s, c, c + d.gap2);
    assert IsSpace(s[c]);
    LetterRunIs(s, b, d.month);
  }

  lemma Gap2IsGreedy(s: string, d: DateSpan)
    requires DateShaped(s, d)
    ensures d.gap2 == SpaceRun(s, d.start + d.day + d.gap1 + d.month)
  {
    var c := d.start + d.day + d.gap1 + d.month;
    var e := c + d.gap2;
    assert AllDigits(s, e, e + 4);
    assert IsDigit(s[e]);
    SpaceRunIs(s, c, d.gap2);
  }

  /** Every match is the greedy one at its position. */
  lemma ShapedIsGreedy(s: string, d: DateSpan)
    requires DateShaped(s, d)
    ensures d == GreedySpan(s, d.start)
  {
    DayIsGreedy(s, d);
    Gap1IsGreedy(s, d);
    MonthIsGreedy(s, d);
    Gap2IsGreedy(s, d);
  }

  /** The leftmost date match at or after `from`: what `String.match` returns first. */
  function FindDate(s: string, from: nat): (r: Option<DateSpan>)
    ensures r.Some? ==> from <= r.value.start && DateShaped(s, r.value)
    ensures r.Some? ==> forall d: DateSpan :: from <= d.start < r.value.start ==> !DateShaped(s, d)
    ensures r.None? ==> forall d: DateSpan :: from <= d.start ==> !DateShaped(s, d)
    decreases |s| - from
  {
    if from >= |s| then
      assert forall d: DateSpan :: from <= d.start ==> !DateShaped(s, d);
      None
    else
      match DateMatchAt(s, from)
      case Some(d) => Some(d)
      case None => FindDate(s, from + 1)
  }

  /** The text of a date match: `dateMatch[1]`. */
  function DateText(s: string, d: DateSpan): (t: string)
    requires DateShaped(s, d)
    ensures |t| == SpanEnd(d) - d.start && t == s[d.start..SpanEnd(d)]
    ensures |t| >= 8 && IsDigit(t[0]) && forall k :: |t| - 4 <= k < |t| ==> IsDigit(t[k])
  {
    s[d.start..SpanEnd(d)]
  }

  // ---------------------------------------------------------------------------
  // The state machine, as a specification over the trimmed lines

  /** `lines` trimmed one by one: the loop trims each line before looking at it. */
  function TrimAll(lines: seq<string>): (r: seq<string>)
    ensures |r| == |lines|
    ensures forall k :: 0 <= k < |r| ==> r[k] == Trim(lines[k])
  {
    seq(|lines|, k requires 0 <= k < |lines| => Trim(lines[k]))
  }

  /** `currentItem`: everything but the summary, which is filled in when the item is saved. */
  datatype Pending = Pending(title: string, url: string, publishedAt: string)

  /** An item starting at a link line: the pending record and the index of its date line. */
  datatype Start = Start(item: Pending, dateLine: nat)

  /** A relative link is resolved against the WHO site. */
  function ResolveUrl(u: string): string {
    if StartsWith(u, "http") then u else WhoOrigin + u
  }

  /** The first non-blank trimmed line at or after `j`, or `|tl|`: the inner `while`. */
  function NextNonBlank(tl: seq<string>, j: nat): (r: nat)
    requires j <= |tl|
    ensures j <= r <= |tl|
    ensures forall k :: j <= k < r ==> tl[k] == []
    ensures r < |tl| ==> tl[r] != []
    decreases |tl| - j
  {
    if j < |tl| && tl[j] == [] then NextNonBlank(tl, j + 1) else j
  }

  /** Whether trimmed line `i` starts an item: a link line whose next non-blank line holds a date. */
  function StartAt(tl: seq<string>, i: nat): (r: Option<Start>)
    requires i < |tl|
    ensures r.Some? ==> i < r.value.dateLine < |tl|
    ensures r.Some? ==> LinkMatch(tl[i]).Some? && r.value.dateLine == NextNonBlank(tl, i + 1)
  {
    match LinkMatch(tl[i])
    case None => None
    case Some(link) =>
      var next := NextNonBlank(tl, i + 1);
      if next < |tl| then
        match FindDate(tl[next], 0)
        case None => None
        case Some(m) => Some(Start(Pending(link.title, ResolveUrl(link.url), DateText(tl[next], m)), next))
      else
        None
  }

  /** A line that ends summary capture: a link line (the greedy pattern accepts the same lines) or a navigation line. */
  predicate StopLine(line: string) {
    LinkMatch(line).Some? || Contains(line, "Read more") || Contains(line, "See all")
  }

  /** The record saved for a pending item and its summary lines. */
  function Emit(p: Pending, buffer: seq<string>): ParsedNewsItem {
    ParsedNewsItem(p.title, Take(Join(buffer, " "), SummaryLimit), p.publishedAt, WhoSource, p.url)
  }

  /** Saving the current item, when it exists and has a non-empty title. */
  function Flush(current: Option<Pending>, buffer: seq<string>, items: seq<ParsedNewsItem>): seq<ParsedNewsItem> {
    if current.Some? && current.value.title != [] then items + [Emit(current.value, buffer)] else items
  }

  datatype ScanState = ScanState(
    current: Option<Pending>,
    capture: bool,
    buffer: seq<string>,
    items: seq<ParsedNewsItem>)

  const Initial: ScanState := ScanState(None, false, [], [])

  /** The state after a start line: the held item saved, the new one held, capture on. */
  function Started(st: ScanState, p: Pending): ScanState {
    ScanState(Some(p), true, [], Flush(st.current, st.buffer, st.items))
  }

  /** One pass of the loop body at line `i`: the next line to read and the new state. */
  function Step(tl: seq<string>, i: nat, st: ScanState): (r: (nat, ScanState))
    requires i < |tl|
    ensures i < r.0 <= |tl|
  {
    if tl[i] == [] then (i + 1, st)
    else
      match StartAt(tl, i)
      case Some(s) =>
        (s.dateLine + 1, Started(st, s.item))
      case None =>
        if !st.capture then (i + 1, st)
        else if StopLine(tl[i]) then (i + 1, st.(capture := false))
        else (i + 1, st.(buffer := st.buffer + [tl[i]]))
  }

  /** The items produced from line `i` on, in state `st`, including the final save. */
  function Run(tl: seq<string>, i: nat, st: ScanState): seq<ParsedNewsItem>
    decreases |tl| - i
  {
    if i >= |tl| then Flush(st.current, st.buffer, st.items)
    else
      var (j, st') := Step(tl, i, st);
      Run(tl, j, st')
  }

  function ParsedLines(lines: seq<string>): seq<ParsedNewsItem> {
    Run(TrimAll(lines), 0, Initial)
  }

  // ---------------------------------------------------------------------------
  // parseWHONews

  method ParseWhoNews(markdown: string) returns (items: seq<ParsedNewsItem>)
    ensures items == ParsedLines(Split(markdown, '\n'))
    ensures forall k :: 0 <= k < |items| ==> WellFormed(items[k])
    ensures |items| <= StartCount(TrimAll(Split(markdown, '\n')), 0)
  {
    var lines := Split(markdown, '\n');
    ghost var tl := TrimAll(lines);
    items := [];
    var current: Option<Pending> := None;
    var capture := false;
    var buffer: seq<string> := [];

    var i := 0;
    while i < |lines|
      invariant 0 <= i <= |lines|
      invariant Run(tl, i, ScanState(current, capture, buffer, items)) == Run(tl, 0, Initial)
      decreases |lines| - i
    {
      ghost var st := ScanState(current, capture, buffer, items);
      ghost var i0 := i;
      i, current, capture, buffer, items := ReadLine(lines, tl, i, current, capture, buffer, items);
      RunStep(tl, i0, st, i, ScanState(current, capture, buffer, items));
    }
    if current.Some? && current.value.title != [] {
      items := items + [Emit(current.value, buffer)];
    }
    ItemsWellFormed(tl, 0, Initial);
    ItemCountBound(tl, 0, Initial);
  }

  /** One pass of the loop body of `parseWHONews`, at line `i`. */
  method ReadLine(lines: seq<string>, ghost tl: seq<string>, i: nat, current: Option<Pending>, capture: bool,
                  buffer: seq<string>, items: seq<ParsedNewsItem>)
    returns (i': nat, current': Option<Pending>, capture': bool, buffer': seq<string>, items': seq<ParsedNewsItem>)
    requires tl == TrimAll(lines) && i < |lines|
    ensures (i', ScanState(current', capture', buffer', items')) == Step(tl, i, ScanState(current, capture, buffer, items))
  {
    var line := Trim(lines[i]);
    if line == [] {
      StepBlank(tl, i, ScanState(current, capture, buffer, items));
      return i + 1, current, capture, buffer, items;
    }
    var start := DetectStart(lines, tl, i, line);
    if start.Some? {
      i', current', capture', buffer', items' := StartItem(tl, i, start.value, current, capture, buffer, items);
    } else {
      capture', buffer' := CaptureLine(tl, i, line, capture, buffer, current, items);
      i', current', items' := i + 1, current, items;
    }
  }

  /**
   * Whether line `i` starts an item: it matches the link pattern and the
   * next non-blank line holds a date.
   */
  method DetectStart(lines: seq<string>, ghost tl: seq<string>, i: nat, line: string) returns (start: Option<Start>)
    requires tl == TrimAll(lines) && i < |lines| && line == tl[i]
    ensures start == StartAt(tl, i)
  {
    var link := LinkMatch(line);
    if link.None? {
      return None;
    }
    var next := SkipBlank(lines, tl, i + 1);
    if next == |lines| {
      return None;
    }
    var dateLine := Trim(lines[next]);
    var date := FindDate(dateLine, 0);
    if date.None? {
      return None;
    }
    StartAtLink(tl, i, link.value, next, dateLine, date.value);
    return Some(Start(Pending(link.value.title, ResolveUrl(link.value.url), DateText(dateLine, date.value)), next));
  }

  /** A start line: the held item, if it has a title, is saved and the new one is held. */
  method StartItem(ghost tl: seq<string>, i: nat, s: Start, current: Option<Pending>, capture: bool,
                   buffer: seq<string>, items: seq<ParsedNewsItem>)
    returns (i': nat, current': Option<Pending>, capture': bool, buffer': seq<string>, items': seq<ParsedNewsItem>)
    requires i < |tl| && tl[i] != [] && StartAt(tl, i) == Some(s)
    ensures (i', ScanState(current', capture', buffer', items')) == Step(tl, i, ScanState(current, capture, buffer, items))
  {
    StepStart(tl, i, ScanState(current, capture, buffer, items), s);
    items' := items;
    if current.Some? && current.value.title != [] {
      items' := items + [Emit(current.value, buffer)];
    }
    i', current', capture', buffer' := s.dateLine + 1, Some(s.item), true, [];
  }

  /** Any other line: appended to the summary while capturing, unless it is a stop line, which ends the capture. */
  method CaptureLine(ghost tl: seq<string>, i: nat, line: string, capture: bool, buffer: seq<string>,
                     ghost current: Option<Pending>, ghost items: seq<ParsedNewsItem>)
    returns (capture': bool, buffer': seq<string>)
    requires i < |tl| && line == tl[i] && line != [] && StartAt(tl, i).None?
    ensures (i + 1, ScanState(current, capture', buffer', items)) == Step(tl, i, ScanState(current, capture, buffer, items))
  {
    StepOther(tl, i, ScanState(current, capture, buffer, items));
    capture', buffer' := capture, buffer;
    if capture {
      if StopLine(line) {
        capture' := false;
      } else {
        buffer' := buffer + [line];
      }
    }
  }

  /** The inner `while` of the loop body: the index of the first non-blank line from `from` on. */
  method SkipBlank(lines: seq<string>, ghost tl: seq<string>, from: nat) returns (next: nat)
    requires tl == TrimAll(lines) && from <= |lines|
    ensures next == NextNonBlank(tl, from)
  {
    next := from;
    while next < |lines| && Trim(lines[next]) == []
      invariant from <= next <= |lines|
      invariant NextNonBlank(tl, next) == NextNonBlank(tl, from)
      decreases |lines| - next
    {
      next := next + 1;
    }
  }

  /** A blank line is skipped. */
  lemma StepBlank(tl: seq<string>, i: nat, st: ScanState)
    requires i < |tl| && tl[i] == []
    ensures Step(tl, i, st) == (i + 1, st)
  {
  }

  /** A start line saves the held item, holds the new one and resumes after its date line. */
  lemma StepStart(tl: seq<string>, i: nat, st: ScanState, s: Start)
    requires i < |tl| && tl[i] != [] && StartAt(tl, i) == Some(s)
    ensures Step(tl, i, st) == (s.dateLine + 1, Started(st, s.item))
  {
  }

  /** A link line whose next non-blank line holds a date starts the item they describe. */
  lemma StartAtLink(tl: seq<string>, i: nat, link: Link, next: nat, dateLine: string, date: DateSpan)
    requires i < |tl| && LinkMatch(tl[i]) == Some(link)
    requires next == NextNonBlank(tl, i + 1) && next < |tl| && dateLine == tl[next]
    requires FindDate(dateLine, 0) == Some(date)
    ensures StartAt(tl, i) == Some(Start(Pending(link.title, ResolveUrl(link.url), DateText(dateLine, date)), next))
  {
  }

  /** The items produced from line `i` on are those produced after one pass of the loop body. */
  lemma RunStep(tl: seq<string>, i: nat, st: ScanState, j: nat, st': ScanState)
    requires i < |tl| && (j, st') == Step(tl, i, st)
    ensures Run(tl, i, st) == Run(tl, j, st')
  {
  }

  /** Any other line feeds the summary capture. */
  lemma StepOther(tl: seq<string>, i: nat, st: ScanState)
    requires i < |tl| && tl[i] != [] && StartAt(tl, i).None?
    ensures Step(tl, i, st) ==
              (i + 1, if !st.capture then st
                      else if StopLine(tl[i]) then st.(capture := false)
                      else st.(buffer := st.buffer + [tl[i]]))
  {
  }



  // ---------------------------------------------------------------------------
  // What every saved item satisfies

  /** A saved item: non-empty title, fixed source, bounded summary, absolute link, a date. */
  predicate WellFormed(item: ParsedNewsItem) {
    && item.title != []
    && item.source == WhoSource
    && |item.summary| <= SummaryLimit
    && (StartsWith(item.url, "http") || StartsWith(item.url, WhoOrigin))
    && |item.publishedAt| >= 8 && IsDigit(item.publishedAt[0])
  }

  /** A pending item as a start line makes it. */
  predicate PendingOk(p: Pending) {
    && (StartsWith(p.url, "http") || StartsWith(p.url, WhoOrigin))
    && |p.publishedAt| >= 8 && IsDigit(p.publishedAt[0])
  }

  predicate StateOk(st: ScanState) {
    && (st.current.Some? ==> PendingOk(st.current.value))
    && forall k :: 0 <= k < |st.items| ==> WellFormed(st.items[k])
  }

  lemma ResolvedUrlOk(u: string)
    ensures StartsWith(ResolveUrl(u), "http") || StartsWith(ResolveUrl(u), WhoOrigin)
  {
    if !StartsWith(u, "http") {
      assert (WhoOrigin + u)[..|WhoOrigin|] == WhoOrigin;
    }
  }

  lemma FlushOk(st: ScanState)
    requires StateOk(st)
    ensures forall k :: 0 <= k < |Flush(st.current, st.buffer, st.items)| ==>
              WellFormed(Flush(st.current, st.buffer, st.items)[k])
  {
  }

  lemma StepOk(tl: seq<string>, i: nat, st: ScanState)
    requires i < |tl| && StateOk(st)
    ensures StateOk(Step(tl, i, st).1)
  {
    if tl[i] != [] {
      match StartAt(tl, i)
      case Some(s) =>
        ResolvedUrlOk(LinkMatch(tl[i]).value.url);
        FlushOk(st);
      case None =>
    }
  }

  /** Every item the state machine saves is well formed. */
  lemma {:induction false} ItemsWellFormed(tl: seq<string>, i: nat, st: ScanState)
    requires StateOk(st)
    ensures forall k :: 0 <= k < |Run(tl, i, st)| ==> WellFormed(Run(tl, i, st)[k])
    decreases |tl| - i
  {
    if i >= |tl| {
      FlushOk(st);
    } else {
      StepOk(tl, i, st);
      var (j, st') := Step(tl, i, st);
      ItemsWellFormed(tl, j, st');
    }
  }

  // ---------------------------------------------------------------------------
  // No more items than link-and-date pairs

  /** The number of trimmed lines at or after `i` that start an item. */
  function StartCount(tl: seq<string>, i: nat): nat
    decreases |tl| - i
  {
    if i >= |tl| then 0
    else StartCount(tl, i + 1) + (if StartAt(tl, i).Some? then 1 else 0)
  }

  lemma {:induction false} StartCountMonotone(tl: seq<string>, i: nat, j: nat)
    requires i <= j
    ensures StartCount(tl, j) <= StartCount(tl, i)
    decreases j - i
  {
    if i < j {
      StartCountMonotone(tl, i + 1, j);
    }
  }

  /** The item held in `st`, if it would be saved: 1 or 0. */
  function Held(st: ScanState): nat {
    if st.current.Some? && st.current.value.title != [] then 1 else 0
  }

  /** A step saves at most one item, and only at a start line. */
  lemma StepCount(tl: seq<string>, i: nat, st: ScanState)
    requires i < |tl|
    ensures var (j, st') := Step(tl, i, st);
            |st'.items| + Held(st') + StartCount(tl, j) <= |st.items| + Held(st) + StartCount(tl, i)
  {
    var (j, st') := Step(tl, i, st);
    StartCountMonotone(tl, i + 1, j);
  }

  /** Each saved item comes from its own start line, or from the item held on entry. */
  lemma {:induction false} ItemCountBound(tl: seq<string>, i: nat, st: ScanState)
    ensures |Run(tl, i, st)| <= |st.items| + Held(st) + StartCount(tl, i)
    decreases |tl| - i
  {
    if i < |tl| {
      StepCount(tl, i, st);
      var (j, st') := Step(tl, i, st);
      ItemCountBound(tl, j, st');
    }
  }

  // ---------------------------------------------------------------------------
  // Summary capture

  /** A trimmed line of running text: neither blank nor a stop line. */
  predicate Prose(line: string) {
    line != [] && !StopLine(line)
  }

  /**
   * While capturing, prose lines are appended to the summary until the page
   * ends; the held item is then saved with all of them.
   */
  lemma {:induction false} ProseIsCaptured(tl: seq<string>, i: nat, st: ScanState)
    requires st.capture && i <= |tl|
    requires forall k :: i <= k < |tl| ==> Prose(tl[k])
    ensures Run(tl, i, st) == Flush(st.current, st.buffer + tl[i..], st.items)
    decreases |tl| - i
  {
    if i == |tl| {
      assert st.buffer + tl[i..] == st.buffer;
    } else {
      assert LinkMatch(tl[i]).None?;
      ProseIsCaptured(tl, i + 1, st.(buffer := st.buffer + [tl[i]]));
      assert st.buffer + [tl[i]] + tl[i + 1..] == st.buffer + tl[i..];
    }
  }

  /** With capture off, lines that start no item change nothing. */
  lemma {:induction false} IdleLinesIgnored(tl: seq<string>, i: nat, st: ScanState)
    requires i <= |tl| && !st.capture
    requires forall k :: i <= k < |tl| ==> StartAt(tl, k).None?
    ensures Run(tl, i, st) == Flush(st.current, st.buffer, st.items)
    decreases |tl| - i
  {
    if i < |tl| {
      IdleLinesIgnored(tl, i + 1, st);
    }
  }

  /** A stop line met while capturing ends the summary; later lines that start no item add nothing. */
  lemma StopLineEndsSummary(tl: seq<string>, i: nat, st: ScanState)
    requires i < |tl| && st.capture && tl[i] != [] && StopLine(tl[i])
    requires forall k :: i <= k < |tl| ==> StartAt(tl, k).None?
    ensures Run(tl, i, st) == Flush(st.current, st.buffer, st.items)
  {
    IdleLinesIgnored(tl, i + 1, st.(capture := false));
  }

  /** A page whose first line is a link and whose second holds a date starts with that item held. */
  lemma PageStartsWithItem(tl: seq<string>, link: Link, date: DateSpan)
    requires |tl| >= 2 && LinkMatch(tl[0]) == Some(link)
    requires tl[0] != [] && tl[1] != [] && FindDate(tl[1], 0) == Some(date)
    ensures Run(tl, 0, Initial) ==
              Run(tl, 2, ScanState(Some(Pending(link.title, ResolveUrl(link.url), DateText(tl[1], date))), true, [], []))
  {
    var p := Pending(link.title, ResolveUrl(link.url), DateText(tl[1], date));
    assert NextNonBlank(tl, 1) == 1;
    StartAtLink(tl, 0, link, 1, tl[1], date);
    StepStart(tl, 0, Initial, Start(p, 1));
    RunStep(tl, 0, Initial, 2, Started(Initial, p));
  }

  /**
   * A page holding one item: its link line, its date line and prose lines.
   * The item keeps the link's title, the resolved url, the matched date and
   * the trimmed prose lines joined by spaces, cut at 500 characters.
   */
  lemma SingleItem(lines: seq<string>, link: Link, date: DateSpan)
    requires |lines| >= 2 && LinkMatch(Trim(lines[0])) == Some(link) && link.title != []
    requires Trim(lines[1]) != [] && FindDate(Trim(lines[1]), 0) == Some(date)
    requires forall k :: 2 <= k < |lines| ==> Prose(Trim(lines[k]))
    ensures ParsedLines(lines) ==
              [ParsedNewsItem(link.title, Take(Join(TrimAll(lines[2..]), " "), SummaryLimit),
                              DateText(Trim(lines[1]), date), WhoSource, ResolveUrl(link.url))]
  {
    var tl := TrimAll(lines);
    var p := Pending(link.title, ResolveUrl(link.url), DateText(tl[1], date));
    PageStartsWithItem(tl, link, date);
    ProseIsCaptured(tl, 2, ScanState(Some(p), true, [], []));
    assert [] + tl[2..] == TrimAll(lines[2..]);
    assert ParsedLines(lines) == Flush(Some(p), [] + tl[2..], []);
  }
}
