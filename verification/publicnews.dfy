/**
 * The RSS reader of the public news feed: it cuts a feed into successive
 * `<item>…</item>` blocks, reads the title, link, date and description of
 * each block with lazy one-line patterns (the CDATA form first), keeps the
 * blocks that have a title and a link, and cleans the title and the
 * description for display.
 */
module PublicNews {

  import opened Text
  import opened RssBlocks

  /** An item as the feed reader returns it: trimmed fields. */
  datatype RssItem = RssItem(title: string, link: string, pubDate: string, description: string)

  // ---------------------------------------------------------------------------
  // One field: the first match of `<open>(.*?)<close>` in a block

  /**
   * The match starting at `p`, if there is one: the lazy group stops at the
   * first closing tag after the opening one, and `.` must match every
   * character up to it.
   */
  function CaptureAt(s: string, open: string, close: string, p: nat): Option<string>
  {
    if !OccursAt(s, open, p) then None
    else
      match IndexOf(s, close, p + |open|)
      case None => None
      case Some(q) => if LineFree(s[p + |open|..q]) then Some(s[p + |open|..q]) else None
  }

  /** The leftmost match at or after `p`. */
  function CaptureFrom(s: string, open: string, close: string, p: nat): Option<string>
    decreases |s| - p
  {
    if p > |s| then None
    else if CaptureAt(s, open, close, p).Some? then CaptureAt(s, open, close, p)
    else CaptureFrom(s, open, close, p + 1)
  }

  /** `s.match(/<open>(.*?)<close>/)`, giving the captured group. */
  function Capture(s: string, open: string, close: string): Option<string>
  {
    CaptureFrom(s, open, close, 0)
  }

  /** An opening tag at `p` and a closing tag at `q` with only one line between them. */
  predicate FieldAt(s: string, open: string, close: string, p: nat, q: nat) {
    OccursAt(s, open, p) && p + |open| <= q && OccursAt(s, close, q) && LineFree(s[p + |open|..q])
  }

  /** The field is present: some opening tag is followed on the same line by a closing tag. */
  predicate FieldPresent(s: string, open: string, close: string) {
    exists p: nat, q: nat | p <= q <= |s| :: FieldAt(s, open, close, p, q)
  }

  /** A match at `p` holds the text up to the first closing tag, on one line. */
  lemma CaptureAtSpec(s: string, open: string, close: string, p: nat) returns (q: nat)
    requires CaptureAt(s, open, close, p).Some?
    ensures FieldAt(s, open, close, p, q) && CaptureAt(s, open, close, p).value == s[p + |open|..q]
    ensures forall k :: p + |open| <= k < q ==> !OccursAt(s, close, k)
  {
    q := IndexOf(s, close, p + |open|).value;
  }

  /** An opening tag with a closing tag after it on the same line gives a match at that position. */
  lemma CaptureAtFound(s: string, open: string, close: string, p: nat, q: nat)
    requires FieldAt(s, open, close, p, q)
    ensures CaptureAt(s, open, close, p).Some?
  {
    var first := IndexOf(s, close, p + |open|);
    assert first.Some? && first.value <= q;
    assert s[p + |open|..first.value] == s[p + |open|..q][..first.value - (p + |open|)];
  }

  /** The leftmost match: the result comes from the first start position that has one. */
  lemma {:induction false} CaptureFromFound(s: string, open: string, close: string, p: nat) returns (k: nat)
    requires CaptureFrom(s, open, close, p).Some?
    ensures p <= k <= |s| && CaptureFrom(s, open, close, p) == CaptureAt(s, open, close, k)
    ensures forall j :: p <= j < k ==> CaptureAt(s, open, close, j).None?
    decreases |s| - p
  {
    if CaptureAt(s, open, close, p).Some? {
      k := p;
    } else {
      k := CaptureFromFound(s, open, close, p + 1);
    }
  }

  /** No match from `p` on means no start position from `p` on has one. */
  lemma {:induction false} CaptureFromNone(s: string, open: string, close: string, p: nat, j: nat)
    requires CaptureFrom(s, open, close, p).None? && p <= j
    ensures CaptureAt(s, open, close, j).None?
    decreases |s| - p
  {
    if p <= |s| && j > p {
      CaptureFromNone(s, open, close, p + 1, j);
    }
  }

  /** A field is captured exactly when it is present. */
  lemma CaptureIffPresent(s: string, open: string, close: string)
    ensures Capture(s, open, close).Some? <==> FieldPresent(s, open, close)
  {
    if Capture(s, open, close).Some? {
      var k := CaptureFromFound(s, open, close, 0);
      var q := CaptureAtSpec(s, open, close, k);
      assert FieldAt(s, open, close, k, q);
    }
    if FieldPresent(s, open, close) {
      var p: nat, q: nat :| p <= q <= |s| && FieldAt(s, open, close, p, q);
      CaptureAtFound(s, open, close, p, q);
      if Capture(s, open, close).None? {
        CaptureFromNone(s, open, close, 0, p);
      }
    }
  }

  /**
   * The capture is the leftmost match: it starts at the first opening tag
   * that has a closing tag after it on the same line, ends at the first
   * closing tag after that opening tag, and lies on one line.
   */
  lemma CaptureIsLeftmost(s: string, open: string, close: string) returns (p: nat, q: nat)
    requires Capture(s, open, close).Some?
    ensures FieldAt(s, open, close, p, q) && Capture(s, open, close).value == s[p + |open|..q]
    ensures LineFree(Capture(s, open, close).value)
    ensures forall k :: p + |open| <= k < q ==> !OccursAt(s, close, k)
    ensures forall j: nat, q': nat :: j < p ==> !FieldAt(s, open, close, j, q')
  {
    p := CaptureFromFound(s, open, close, 0);
    q := CaptureAtSpec(s, open, close, p);
    forall j: nat, q': nat | j < p ensures !FieldAt(s, open, close, j, q') {
      if FieldAt(s, open, close, j, q') {
        CaptureAtFound(s, open, close, j, q');
      }
    }
  }

  // ---------------------------------------------------------------------------
  // The fields of an item block

  const CdataTitleOpen: string := "<title><![CDATA["
  const CdataTitleClose: string := "]]></title>"
  const TitleOpen: string := "<title>"
  const TitleClose: string := "</title>"
  const LinkOpen: string := "<link>"
  const LinkClose: string := "</link>"
  const DateOpen: string := "<pubDate>"
  const DateClose: string := "</pubDate>"
  const CdataDescriptionOpen: string := "<description><![CDATA["
  const CdataDescriptionClose: string := "]]></description>"
  const DescriptionOpen: string := "<description>"
  const DescriptionClose: string := "</description>"

  /** `a || b` on two match results: the first when it matched. */
  function Either(a: Option<string>, b: Option<string>): Option<string> {
    if a.Some? then a else b
  }

  /**
   * One block: kept when a title and a link were matched (an empty match
   * counts); all fields trimmed; a missing date becomes `now`, the reading
   * time, and a missing description the empty string.
   */
  function ParseItem(content: string, now: string): Option<RssItem>
  {
    var title := Either(Capture(content, CdataTitleOpen, CdataTitleClose), Capture(content, TitleOpen, TitleClose));
    var link := Capture(content, LinkOpen, LinkClose);
    var date := Capture(content, DateOpen, DateClose);
    var description := Either(Capture(content, CdataDescriptionOpen, CdataDescriptionClose),
                              Capture(content, DescriptionOpen, DescriptionClose));
    if title.Some? && link.Some? then
      Some(RssItem(
        Trim(title.value),
        Trim(link.value),
        if date.Some? then Trim(date.value) else now,
        if description.Some? then Trim(description.value) else ""))
    else
      None
  }

  /**
   * A CDATA title always satisfies the plain pattern too, so the alternation
   * decides what the title is, never whether the item is kept.
   */
  lemma CdataTitleIsAlsoPlain(content: string)
    requires FieldPresent(content, CdataTitleOpen, CdataTitleClose)
    ensures FieldPresent(content, TitleOpen, TitleClose)
  {
    var p: nat, q: nat :| p <= q <= |content| && FieldAt(content, CdataTitleOpen, CdataTitleClose, p, q);
    var q' := q + 3;
    CdataTitleTags(content, p, q);
    var inner := content[p + |CdataTitleOpen|..q];
    assert content[p + |TitleOpen|..q'] == "<![CDATA[" + inner + "]]>" by {
      assert content[p + |TitleOpen|..q'] == content[p + |TitleOpen|..p + |CdataTitleOpen|] + inner + content[q..q'];
    }
    assert LineFree("<![CDATA[") && LineFree("]]>");
    LineFreeAppend("<![CDATA[", inner);
    LineFreeAppend("<![CDATA[" + inner, "]]>");
    assert FieldAt(content, TitleOpen, TitleClose, p, q');
  }

  /** The CDATA title tags hold the plain ones, with the CDATA markers between them. */
  lemma CdataTitleTags(content: string, p: nat, q: nat)
    requires OccursAt(content, CdataTitleOpen, p) && OccursAt(content, CdataTitleClose, q)
    ensures OccursAt(content, TitleOpen, p) && content[p + |TitleOpen|..p + |CdataTitleOpen|] == "<![CDATA["
    ensures OccursAt(content, TitleClose, q + 3) && content[q..q + 3] == "]]>"
  {
    var o := content[p..p + |CdataTitleOpen|];
    var c := content[q..q + |CdataTitleClose|];
    assert content[p..p + |TitleOpen|] == o[..|TitleOpen|];
    assert content[p + |TitleOpen|..p + |CdataTitleOpen|] == o[|TitleOpen|..];
    assert content[q + 3..q + 3 + |TitleClose|] == c[3..];
    assert content[q..q + 3] == c[..3];
  }

  /** A block yields an item exactly when it holds a title and a link, each on one line. */
  lemma ItemIffTitleAndLink(content: string, now: string)
    ensures ParseItem(content, now).Some? <==>
              FieldPresent(content, TitleOpen, TitleClose) && FieldPresent(content, LinkOpen, LinkClose)
  {
    CaptureIffPresent(content, CdataTitleOpen, CdataTitleClose);
    CaptureIffPresent(content, TitleOpen, TitleClose);
    CaptureIffPresent(content, LinkOpen, LinkClose);
    if FieldPresent(content, CdataTitleOpen, CdataTitleClose) {
      CdataTitleIsAlsoPlain(content);
    }
  }

  /** The CDATA form wins when present; otherwise the plain title is used. */
  lemma CdataPreferred(content: string, now: string)
    requires ParseItem(content, now).Some?
    ensures FieldPresent(content, CdataTitleOpen, CdataTitleClose) ==>
              && Capture(content, CdataTitleOpen, CdataTitleClose).Some?
              && ParseItem(content, now).value.title == Trim(Capture(content, CdataTitleOpen, CdataTitleClose).value)
    ensures !FieldPresent(content, CdataTitleOpen, CdataTitleClose) ==>
              && Capture(content, TitleOpen, TitleClose).Some?
              && ParseItem(content, now).value.title == Trim(Capture(content, TitleOpen, TitleClose).value)
  {
    CaptureIffPresent(content, CdataTitleOpen, CdataTitleClose);
  }

  /** Missing optional fields: the date becomes the reading time and the description empty. */
  lemma MissingFieldsDefault(content: string, now: string)
    requires ParseItem(content, now).Some?
    ensures !FieldPresent(content, DateOpen, DateClose) ==> ParseItem(content, now).value.pubDate == now
    ensures !FieldPresent(content, CdataDescriptionOpen, CdataDescriptionClose)
            && !FieldPresent(content, DescriptionOpen, DescriptionClose) ==>
              ParseItem(content, now).value.description == ""
  {
    CaptureIffPresent(content, DateOpen, DateClose);
    CaptureIffPresent(content, CdataDescriptionOpen, CdataDescriptionClose);
    CaptureIffPresent(content, DescriptionOpen, DescriptionClose);
  }

  /** No white space at either end of a string. */
  predicate Trimmed(s: string) {
    s == [] || (!IsSpace(s[0]) && !IsSpace(s[|s| - 1]))
  }

  /** Title and link are trimmed, and so are a captured date and description. */
  lemma ItemFieldsTrimmed(content: string, now: string)
    requires ParseItem(content, now).Some?
    ensures Trimmed(ParseItem(content, now).value.title) && Trimmed(ParseItem(content, now).value.link)
    ensures Trimmed(ParseItem(content, now).value.description)
  {
  }

  // ---------------------------------------------------------------------------
  // The feed: the blocks' items in order

  /** `ParseItem` with the clock reading fixed. */
  function ItemParser(now: string): string -> Option<RssItem> {
    content => ParseItem(content, now)
  }

  /** The items of some blocks, in block order: the blocks that parse, each giving its item. */
  function Collect(blocks: seq<string>, now: string): seq<RssItem>
  {
    Somes(Parsed(blocks, ItemParser(now)))
  }

  /** Collecting goes block by block, so the items keep the order of their blocks. */
  lemma CollectAppend(a: seq<string>, b: seq<string>, now: string)
    ensures Collect(a + b, now) == Collect(a, now) + Collect(b, now)
  {
    ParsedAppend(a, b, ItemParser(now));
    SomesAppend(Parsed(a, ItemParser(now)), Parsed(b, ItemParser(now)));
  }

  /** `parseRSS`: each regex match is one block; blocks with a title and a link give items, in order. */
  method ParseRss(xml: string, now: string) returns (items: seq<RssItem>)
    ensures items == Collect(Blocks(xml, 0), now)
  {
    items := [];
    var from := 0;
    while true
      invariant items + ScanItems(xml, from, ItemParser(now)) == ScanItems(xml, 0, ItemParser(now))
      decreases |xml| - from
    {
      var block := NextBlock(xml, from);
      if block.None? {
        break;
      }
      var item := ParseItem(Content(xml, block.value), now);
      assert item == ItemParser(now)(Content(xml, block.value));
      ghost var before := items;
      if item.Some? {
        items := items + [item.value];
      }
      assert items == before + Keep(item);
      AppendAssociative(before, Keep(item), ScanItems(xml, After(block.value), ItemParser(now)));
      from := After(block.value);
    }
    ScanIsCollect(xml, 0, ItemParser(now));
  }

  /** Every collected item is what some block parses to. */
  lemma CollectFromBlocks(blocks: seq<string>, now: string, item: RssItem) returns (i: nat)
    requires item in Collect(blocks, now)
    ensures i < |blocks| && ParseItem(blocks[i], now) == Some(item)
  {
    SomesMember(Parsed(blocks, ItemParser(now)), item);
    var k :| 0 <= k < |blocks| && Parsed(blocks, ItemParser(now))[k] == Some(item);
    ParsedAt(blocks, ItemParser(now), k);
    i := k;
  }

  /** The parsed feed: no more items than blocks, every title and link trimmed. */
  lemma ParsedFeedSpec(xml: string, now: string)
    ensures |Collect(Blocks(xml, 0), now)| <= |Blocks(xml, 0)|
    ensures forall item :: item in Collect(Blocks(xml, 0), now) ==> Trimmed(item.title) && Trimmed(item.link)
  {
    SomesBound(Parsed(Blocks(xml, 0), ItemParser(now)));
    forall item | item in Collect(Blocks(xml, 0), now)
      ensures Trimmed(item.title) && Trimmed(item.link)
    {
      var i := CollectFromBlocks(Blocks(xml, 0), now, item);
      ItemFieldsTrimmed(Blocks(xml, 0)[i], now);
    }
  }

  // ---------------------------------------------------------------------------
  // The clean-up in `fetchAndParseRSS`

  const CdataStart: string := "<![CDATA["
  const CdataEnd: string := "]]>"

  /** `replace(/<!\[CDATA\[|\]\]>/g, '')`: one left-to-right pass deleting both markers. */
  function StripMarkers(s: string): string
    decreases |s|
  {
    if s == [] then []
    else if StartsWith(s, CdataStart) then StripMarkers(s[|CdataStart|..])
    else if StartsWith(s, CdataEnd) then StripMarkers(s[|CdataEnd|..])
    else [s[0]] + StripMarkers(s[1..])
  }

  predicate MarkerFree(s: string) {
    !Contains(s, CdataStart) && !Contains(s, CdataEnd)
  }

  lemma MarkerFreeTail(s: string)
    requires s != [] && MarkerFree(s)
    ensures MarkerFree(s[1..])
  {
    forall k | 0 <= k <= |s| - 1 - |CdataStart| ensures !OccursAt(s[1..], CdataStart, k) {
      assert !OccursAt(s, CdataStart, k + 1);
      assert s[1..][k..k + |CdataStart|] == s[k + 1..k + 1 + |CdataStart|];
    }
    forall k | 0 <= k <= |s| - 1 - |CdataEnd| ensures !OccursAt(s[1..], CdataEnd, k) {
      assert !OccursAt(s, CdataEnd, k + 1);
      assert s[1..][k..k + |CdataEnd|] == s[k + 1..k + 1 + |CdataEnd|];
    }
  }

  /** Deleting only: the cleaned title is never longer. */
  lemma {:induction false} StripMarkersShorter(s: string)
    ensures |StripMarkers(s)| <= |s|
    decreases |s|
  {
    if s != [] {
      if StartsWith(s, CdataStart) { StripMarkersShorter(s[|CdataStart|..]); }
      else if StartsWith(s, CdataEnd) { StripMarkersShorter(s[|CdataEnd|..]); }
      else { StripMarkersShorter(s[1..]); }
    }
  }

  /** A non-empty marker-free title followed by the closing marker does not start with a marker. */
  lemma NoMarkerAtSeamStart(t: string)
    requires t != [] && MarkerFree(t)
    ensures !StartsWith(t + CdataEnd, CdataStart) && !StartsWith(t + CdataEnd, CdataEnd)
  {
    var s := t + CdataEnd;
    if |t| >= |CdataStart| {
      assert s[..|CdataStart|] == t[..|CdataStart|];
      assert !OccursAt(t, CdataStart, 0);
    } else {
      assert s[|t|] == ']' && CdataStart[|t|] != ']';
    }
    if |t| >= |CdataEnd| {
      assert s[..|CdataEnd|] == t[..|CdataEnd|];
      assert !OccursAt(t, CdataEnd, 0);
    } else {
      assert s[2] == ']';
    }
  }

  /** A title followed by the closing marker: the marker goes and the title stays. */
  lemma {:induction false} StripBeforeEnd(t: string)
    requires MarkerFree(t)
    ensures StripMarkers(t + CdataEnd) == t
    decreases |t|
  {
    var s := t + CdataEnd;
    if t == [] {
      assert s == CdataEnd;
      assert StartsWith(s, CdataEnd);
      assert !StartsWith(s, CdataStart);
      assert s[|CdataEnd|..] == [];
    } else {
      NoMarkerAtSeamStart(t);
      MarkerFreeTail(t);
      StripBeforeEnd(t[1..]);
      assert s[1..] == t[1..] + CdataEnd;
      assert t == [t[0]] + t[1..];
    }
  }

  /** Cleaning undoes CDATA wrapping: a wrapped marker-free title comes back unchanged. */
  lemma UnwrapCdata(t: string)
    requires MarkerFree(t)
    ensures StripMarkers(CdataStart + t + CdataEnd) == t
  {
    var s := CdataStart + t + CdataEnd;
    assert StartsWith(s, CdataStart) by { assert s[..|CdataStart|] == CdataStart; }
    assert s[|CdataStart|..] == t + CdataEnd;
    StripBeforeEnd(t);
  }

  /** A title without markers is left as it is. */
  lemma {:induction false} StripMarkersOfMarkerFree(s: string)
    requires MarkerFree(s)
    ensures StripMarkers(s) == s
    decreases |s|
  {
    if s != [] {
      assert !StartsWith(s, CdataStart) && !StartsWith(s, CdataEnd);
      MarkerFreeTail(s);
      StripMarkersOfMarkerFree(s[1..]);
      assert s == [s[0]] + s[1..];
    }
  }

  /** The first `c` at or after `from`. */
  function IndexOfChar(s: string, c: char, from: nat): (r: Option<nat>)
    ensures r.Some? ==> from <= r.value < |s| && s[r.value] == c
    ensures r.Some? ==> forall k :: from <= k < r.value ==> s[k] != c
    ensures r.None? ==> forall k :: from <= k < |s| ==> s[k] != c
    decreases |s| - from
  {
    if from >= |s| then None
    else if s[from] == c then Some(from)
    else IndexOfChar(s, c, from + 1)
  }

  /**
   * `replace(/<[^>]*>/g, '')`: a `<` with a `>` somewhere after it starts a
   * tag running to the first such `>`, and the tag is deleted; a `<` with no
   * `>` after it is kept.
   */
  function StripTags(s: string): string
    decreases |s|
  {
    if s == [] then []
    else if s[0] == '<' then
      match IndexOfChar(s, '>', 1)
      case Some(j) => StripTags(s[j + 1..])
      case None => [s[0]] + StripTags(s[1..])
    else [s[0]] + StripTags(s[1..])
  }

  /** No `<` is followed, anywhere later, by a `>`: nothing tag-shaped is left. */
  predicate TagFree(s: string) {
    forall i, j :: 0 <= i < j < |s| && s[i] == '<' ==> s[j] != '>'
  }

  /** What the stripping keeps: no longer than the input, no `>` it did not have, and tag-free. */
  lemma {:induction false} StripTagsSpec(s: string)
    ensures |StripTags(s)| <= |s|
    ensures (forall k :: 0 <= k < |s| ==> s[k] != '>') ==> forall k :: 0 <= k < |StripTags(s)| ==> StripTags(s)[k] != '>'
    ensures TagFree(StripTags(s))
    decreases |s|
  {
    if s != [] {
      var r := StripTags(s);
      if s[0] == '<' && IndexOfChar(s, '>', 1).Some? {
        var j := IndexOfChar(s, '>', 1).value;
        StripTagsSpec(s[j + 1..]);
      } else {
        StripTagsSpec(s[1..]);
        var tail := StripTags(s[1..]);
        assert r == [s[0]] + tail;
        if s[0] == '<' {
          forall k | 0 <= k < |s[1..]| ensures s[1..][k] != '>' {
            assert s[1..][k] == s[k + 1];
          }
        }
        forall i, j | 0 <= i < j < |r| && r[i] == '<' ensures r[j] != '>' {
          assert r[j] == tail[j - 1];
          if i > 0 { assert r[i] == tail[i - 1]; }
        }
      }
    }
  }

  /** Text before the first `<` is kept as it is. */
  lemma {:induction false} StripTagsKeepsPrefix(a: string, rest: string)
    requires '<' !in a
    ensures StripTags(a + rest) == a + StripTags(rest)
    decreases |a|
  {
    if a != [] {
      var s := a + rest;
      assert a[0] in a && s[0] == a[0] && s[1..] == a[1..] + rest;
      assert StripTags(s) == [a[0]] + StripTags(a[1..] + rest);
      StripTagsKeepsPrefix(a[1..], rest);
      AppendAssociative([a[0]], a[1..], StripTags(rest));
      assert a == [a[0]] + a[1..];
    } else {
      assert a + rest == rest;
    }
  }

  /**
   * What stripping keeps: the text before a tag stays, the tag `<u>` goes,
   * and stripping carries on after it.
   */
  lemma StripTagsKeepsText(a: string, u: string, rest: string)
    requires '<' !in a && '>' !in u
    ensures StripTags(a + "<" + u + ">" + rest) == a + StripTags(rest)
  {
    var t := "<" + u + ">" + rest;
    assert a + "<" + u + ">" + rest == a + t;
    StripTagsKeepsPrefix(a, t);
    assert t[|u| + 1] == '>';
    forall k | 1 <= k < |u| + 1 ensures t[k] != '>' {
      assert t[k] == u[k - 1];
    }
    assert IndexOfChar(t, '>', 1) == Some(|u| + 1);
    assert t[|u| + 2..] == rest;
  }

  /** Text that is already tag-free passes unchanged, so stripping twice is stripping once. */
  lemma {:induction false} StripTagsOfTagFree(s: string)
    requires TagFree(s)
    ensures StripTags(s) == s
    decreases |s|
  {
    if s != [] {
      assert TagFree(s[1..]) by {
        forall i, j | 0 <= i < j < |s[1..]| && s[1..][i] == '<' ensures s[1..][j] != '>' {
          assert s[1..][i] == s[i + 1] && s[1..][j] == s[j + 1];
        }
      }
      if s[0] == '<' {
        forall k | 1 <= k < |s| ensures s[k] != '>' { }
      }
      StripTagsOfTagFree(s[1..]);
      assert s == [s[0]] + s[1..];
    }
  }

  // ---------------------------------------------------------------------------
  // The stored item

  datatype FeedSource = Cdc | Ecdc

  const SnippetLimit: nat := 500

  datatype PublicNewsItem = PublicNewsItem(
    title: string,
    url: string,
    source: FeedSource,
    publishedAt: string,
    originalSnippet: string)

  /** The cleaned title: never longer, and unchanged when it has no marker. */
  lemma CleanTitleSpec(t: string)
    ensures |StripMarkers(t)| <= |t|
    ensures MarkerFree(t) ==> StripMarkers(t) == t
  {
    StripMarkersShorter(t);
    if MarkerFree(t) {
      StripMarkersOfMarkerFree(t);
    }
  }

  /** The snippet: at most 500 characters, tag-free, and the description itself when that already fits. */
  lemma SnippetSpec(d: string)
    ensures var snippet := Take(StripTags(d), SnippetLimit);
            |snippet| <= SnippetLimit && TagFree(snippet)
            && (TagFree(d) && |d| <= SnippetLimit ==> snippet == d)
  {
    StripTagsSpec(d);
    if TagFree(d) {
      StripTagsOfTagFree(d);
    }
    var stripped := StripTags(d);
    var snippet := Take(stripped, SnippetLimit);
    forall i, j | 0 <= i < j < |snippet| && snippet[i] == '<' ensures snippet[j] != '>' {
      assert snippet[i] == stripped[i] && snippet[j] == stripped[j];
    }
  }

  /**
   * One feed item as stored: CDATA markers removed from the title, tags
   * removed from the description and the result cut to 500 characters.
   * `isoDate` stands for re-printing the date in ISO form.
   */
  function ToPublicNews(item: RssItem, source: FeedSource, isoDate: string -> string): (r: PublicNewsItem)
    ensures r.url == item.link && r.source == source && r.publishedAt == isoDate(item.pubDate)
    ensures |r.title| <= |item.title| && (MarkerFree(item.title) ==> r.title == item.title)
    ensures |r.originalSnippet| <= SnippetLimit && TagFree(r.originalSnippet)
    ensures TagFree(item.description) && |item.description| <= SnippetLimit ==> r.originalSnippet == item.description
  {
    CleanTitleSpec(item.title);
    SnippetSpec(item.description);
    var snippet := Take(StripTags(item.description), SnippetLimit);
    PublicNewsItem(StripMarkers(item.title), item.link, source, isoDate(item.pubDate), snippet)
  }

  /** A title wrapped in CDATA is stored as the bare title. */
  lemma StoredTitleUnwrapsCdata(item: RssItem, source: FeedSource, isoDate: string -> string, t: string)
    requires item.title == CdataStart + t + CdataEnd && MarkerFree(t)
    ensures ToPublicNews(item, source, isoDate).title == t
  {
    UnwrapCdata(t);
  }

  /**
   * A description opening with plain text and then a tag is stored with the
   * text kept, the tag gone and the rest stripped in turn, cut to 500.
   */
  lemma StoredSnippetKeepsText(item: RssItem, source: FeedSource, isoDate: string -> string,
                               a: string, u: string, rest: string)
    requires item.description == a + "<" + u + ">" + rest && '<' !in a && '>' !in u
    ensures ToPublicNews(item, source, isoDate).originalSnippet == Take(a + StripTags(rest), SnippetLimit)
  {
    StripTagsKeepsText(a, u, rest);
  }

  /** `items.map(...)`: one stored item per parsed item, in order. */
  function ToPublicNewsAll(items: seq<RssItem>, source: FeedSource, isoDate: string -> string): (r: seq<PublicNewsItem>)
    ensures |r| == |items|
    ensures forall i :: 0 <= i < |items| ==> r[i] == ToPublicNews(items[i], source, isoDate)
  {
    seq(|items|, i requires 0 <= i < |items| => ToPublicNews(items[i], source, isoDate))
  }
}
