/**
 * The `<item>` blocks of an RSS feed, as the global pattern
 * `/<item>([\s\S]*?)<\/item>/g` finds them when `exec` is run again and
 * again from the end of the last match, and what a loop over those matches
 * gathers when it parses each block and keeps the items that came out. The
 * parse of one block is a parameter here; the feed reader supplies it.
 */
module RssBlocks {

  import opened Text

  const ItemOpen: string := "<item>"
  const ItemClose: string := "</item>"

  /** Where a block opens and where its closing tag starts. */
  datatype Block = Block(open: nat, close: nat)

  /** The captured group of a match: the text between its two tags. */
  function Content(xml: string, b: Block): string
    requires b.open + |ItemOpen| <= b.close <= |xml|
  {
    xml[b.open + |ItemOpen|..b.close]
  }

  /** Where the next `exec` starts: just past the closing tag. */
  function After(b: Block): nat {
    b.close + |ItemClose|
  }

  /**
   * One `exec` from `from`: the first opening tag, closed by the first
   * closing tag after it. Without either there is no further match: no
   * opening tag at or after `from` is followed by a closing tag.
   */
  function NextBlock(xml: string, from: nat): (b: Option<Block>)
    ensures b.Some? ==> from <= b.value.open && b.value.open + |ItemOpen| <= b.value.close
                        && b.value.close + |ItemClose| <= |xml|
    ensures b.Some? ==> OccursAt(xml, ItemOpen, b.value.open)
                        && forall k :: from <= k < b.value.open ==> !OccursAt(xml, ItemOpen, k)
    ensures b.Some? ==> OccursAt(xml, ItemClose, b.value.close)
                        && forall k :: b.value.open + |ItemOpen| <= k < b.value.close ==> !OccursAt(xml, ItemClose, k)
    ensures b.None? ==> forall p, q :: from <= p && OccursAt(xml, ItemOpen, p) && p + |ItemOpen| <= q
                                       ==> !OccursAt(xml, ItemClose, q)
  {
    match IndexOf(xml, ItemOpen, from)
    case None => None
    case Some(p) =>
      match IndexOf(xml, ItemClose, p + |ItemOpen|)
      case None => None
      case Some(q) => Some(Block(p, q))
  }

  /** The contents of the successive blocks from `from` on. */
  function Blocks(xml: string, from: nat): seq<string>
    decreases |xml| - from
  {
    match NextBlock(xml, from)
    case None => []
    case Some(b) => [Content(xml, b)] + Blocks(xml, After(b))
  }

  /** An occurrence inside a slice is an occurrence in the whole text. */
  lemma OccursInSlice(s: string, lo: nat, hi: nat, p: string, k: nat)
    requires lo <= hi <= |s| && OccursAt(s[lo..hi], p, k)
    ensures OccursAt(s, p, lo + k)
  {
    var t := s[lo..hi];
    forall m | 0 <= m < |p| ensures s[lo + k + m] == p[m] {
      assert t[k..k + |p|][m] == p[m];
      assert t[k + m] == s[lo + k + m];
    }
    assert s[lo + k..lo + k + |p|] == p;
  }

  /** The content of a match holds no closing tag: the lazy group stops at the first one. */
  lemma ContentHasNoClose(xml: string, from: nat)
    requires NextBlock(xml, from).Some?
    ensures !Contains(Content(xml, NextBlock(xml, from).value), ItemClose)
  {
    var b := NextBlock(xml, from).value;
    var c := Content(xml, b);
    forall k | 0 <= k <= |c| - |ItemClose| ensures !OccursAt(c, ItemClose, k) {
      if OccursAt(c, ItemClose, k) {
        OccursInSlice(xml, b.open + |ItemOpen|, b.close, ItemClose, k);
        assert false;
      }
    }
  }

  /** No block's content holds a closing tag: each block ends at the first one. */
  lemma {:induction false} BlocksEndAtFirstClose(xml: string, from: nat)
    ensures forall i :: 0 <= i < |Blocks(xml, from)| ==> !Contains(Blocks(xml, from)[i], ItemClose)
    decreases |xml| - from
  {
    match NextBlock(xml, from)
    case None =>
    case Some(b) =>
      BlocksEndAtFirstClose(xml, After(b));
      ContentHasNoClose(xml, from);
      BlocksStep(xml, from);
      var rest := Blocks(xml, After(b));
      forall i | 0 <= i < |Blocks(xml, from)| ensures !Contains(Blocks(xml, from)[i], ItemClose) {
        if i > 0 { assert Blocks(xml, from)[i] == rest[i - 1]; }
      }
  }

  /** The items present among some parse results, in order. */
  function Somes<T>(rs: seq<Option<T>>): seq<T>
  {
    if |rs| == 0 then [] else Keep(rs[0]) + Somes(rs[1..])
  }

  /** What one result contributes: its item, or nothing. */
  function Keep<T>(r: Option<T>): seq<T> {
    match r
    case None => []
    case Some(x) => [x]
  }

  /** No more items than results. */
  lemma {:induction false} SomesBound<T>(rs: seq<Option<T>>)
    ensures |Somes(rs)| <= |rs|
  {
    if rs != [] {
      SomesBound(rs[1..]);
    }
  }

  /** Every item kept is one of the results. */
  lemma {:induction false} SomesMember<T>(rs: seq<Option<T>>, x: T)
    requires x in Somes(rs)
    ensures Some(x) in rs
  {
    if rs != [] {
      if rs[0] == Some(x) {
      } else {
        SomesMember(rs[1..], x);
      }
    }
  }

  /** Keeping is result by result: the items of a concatenation are the items of its parts. */
  lemma {:induction false} SomesAppend<T>(a: seq<Option<T>>, b: seq<Option<T>>)
    ensures Somes(a + b) == Somes(a) + Somes(b)
  {
    if a == [] {
      assert a + b == b;
    } else {
      SomesAppend(a[1..], b);
      var ab := a + b;
      assert ab[0] == a[0];
      assert ab[1..] == a[1..] + b;
      assert Somes(ab) == Keep(a[0]) + Somes(a[1..] + b);
      AppendAssociative(Keep(a[0]), Somes(a[1..]), Somes(b));
    }
  }

  /** The result of `parse` on each block, in block order. */
  function Parsed<T>(blocks: seq<string>, parse: string -> Option<T>): (rs: seq<Option<T>>)
    ensures |rs| == |blocks|
  {
    if |blocks| == 0 then [] else [parse(blocks[0])] + Parsed(blocks[1..], parse)
  }

  /** The result for block `i` is that block parsed. */
  lemma {:induction false} ParsedAt<T>(blocks: seq<string>, parse: string -> Option<T>, i: nat)
    requires i < |blocks|
    ensures Parsed(blocks, parse)[i] == parse(blocks[i])
  {
    if i > 0 {
      ParsedAt(blocks[1..], parse, i - 1);
    }
  }

  /** Parsing goes block by block. */
  lemma {:induction false} ParsedAppend<T>(a: seq<string>, b: seq<string>, parse: string -> Option<T>)
    ensures Parsed(a + b, parse) == Parsed(a, parse) + Parsed(b, parse)
  {
    if a == [] {
      assert a + b == b;
    } else {
      ParsedAppend(a[1..], b, parse);
      var ab := a + b;
      assert ab[0] == a[0];
      assert ab[1..] == a[1..] + b;
      assert Parsed(ab, parse) == [parse(a[0])] + Parsed(a[1..] + b, parse);
      AppendAssociative([parse(a[0])], Parsed(a[1..], parse), Parsed(b, parse));
    }
  }

  /** One `exec` step: a match gives the first block, and the rest follow from its end. */
  lemma BlocksStep(xml: string, from: nat)
    requires NextBlock(xml, from).Some?
    ensures var b := NextBlock(xml, from).value;
            Blocks(xml, from) == [Content(xml, b)] + Blocks(xml, After(b))
  {
  }

  lemma ParsedCons<T>(content: string, rest: seq<string>, parse: string -> Option<T>)
    ensures Parsed([content] + rest, parse) == [parse(content)] + Parsed(rest, parse)
  {
    assert ([content] + rest)[1..] == rest;
  }

  lemma SomesCons<T>(r: Option<T>, rest: seq<Option<T>>)
    ensures Somes([r] + rest) == Keep(r) + Somes(rest)
  {
    assert ([r] + rest)[1..] == rest;
  }

  /** The items the `exec` loop gathers from `from` on, match by match. */
  function ScanItems<T>(xml: string, from: nat, parse: string -> Option<T>): seq<T>
    decreases |xml| - from
  {
    match NextBlock(xml, from)
    case None => []
    case Some(b) => Keep(parse(Content(xml, b))) + ScanItems(xml, After(b), parse)
  }

  /** Scanning match by match gathers the items of the blocks, in block order. */
  lemma {:induction false} ScanIsCollect<T>(xml: string, from: nat, parse: string -> Option<T>)
    ensures ScanItems(xml, from, parse) == Somes(Parsed(Blocks(xml, from), parse))
    decreases |xml| - from
  {
    match NextBlock(xml, from)
    case None =>
    case Some(b) =>
      var content := Content(xml, b);
      var rest := Blocks(xml, After(b));
      ScanIsCollect(xml, After(b), parse);
      BlocksStep(xml, from);
      ParsedCons(content, rest, parse);
      SomesCons(parse(content), Parsed(rest, parse));
  }
}
