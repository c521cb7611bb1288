/**
 * The mapper from parsed WHO items to news-signal rows: it copies the fields,
 * falls back to the title when the summary is empty, and grades each item
 * high, medium or low by keyword search over its lower-cased title and
 * summary.
 */
module Mapper {

  import opened Text
  import opened Rules
  import opened WhoParse

  /** Any of these in the text makes a signal high. */
  const HighKeywords: seq<string> := ["death", "critical", "emergency", "severe", "fatal", "surge"]

  /** Failing those, any of these makes it medium. */
  const MediumKeywords: seq<string> := ["outbreak", "case", "increase", "spread", "detected", "new"]

  /** The searched text: title and summary joined by one space, lower-cased. */
  function SignalText(title: string, summary: string): string {
    ToLower(title + " " + summary)
  }

  predicate AnyOccurs(text: string, words: seq<string>) {
    exists j :: 0 <= j < |words| && Contains(text, words[j])
  }

  /** `determineSignalLevel` */
  function DetermineSignalLevel(title: string, summary: string): (r: SignalLevel)
    ensures r == High <==> AnyOccurs(SignalText(title, summary), HighKeywords)
    ensures r == Medium <==> !AnyOccurs(SignalText(title, summary), HighKeywords)
                             && AnyOccurs(SignalText(title, summary), MediumKeywords)
    ensures r == Low <==> !AnyOccurs(SignalText(title, summary), HighKeywords)
                          && !AnyOccurs(SignalText(title, summary), MediumKeywords)
  {
    var text := SignalText(title, summary);
    if FirstOccurring(text, HighKeywords, 0).Some? then High
    else if FirstOccurring(text, MediumKeywords, 0).Some? then Medium
    else Low
  }

  /** A text that contains `p` still contains it with more appended or prepended. */
  lemma ContainsExtended(a: string, b: string, c: string, p: string)
    requires Contains(b, p)
    ensures Contains(a + b + c, p)
  {
    var k :| 0 <= k <= |b| - |p| && OccursAt(b, p, k);
    assert (a + b + c)[|a| + k..|a| + k + |p|] == b[k..k + |p|];
    assert OccursAt(a + b + c, p, |a| + k);
  }

  /** The searched text is the lower-cased title, a space and the lower-cased summary. */
  lemma SignalTextParts(title: string, summary: string)
    ensures SignalText(title, summary) == ToLower(title) + " " + ToLower(summary)
  {
    ToLowerAppend(title, " " + summary);
    ToLowerAppend(" ", summary);
    assert title + " " + summary == title + (" " + summary);
  }

  /** A high keyword anywhere in the title or the summary, in any case, makes the signal high. */
  lemma HighKeywordMakesHigh(title: string, summary: string, j: nat)
    requires j < |HighKeywords|
    requires Contains(ToLower(title), HighKeywords[j]) || Contains(ToLower(summary), HighKeywords[j])
    ensures DetermineSignalLevel(title, summary) == High
  {
    SignalTextParts(title, summary);
    if Contains(ToLower(title), HighKeywords[j]) {
      ContainsExtended([], ToLower(title), " " + ToLower(summary), HighKeywords[j]);
      assert [] + ToLower(title) + (" " + ToLower(summary)) == SignalText(title, summary);
    } else {
      ContainsExtended(ToLower(title) + " ", ToLower(summary), [], HighKeywords[j]);
      assert ToLower(title) + " " + ToLower(summary) + [] == SignalText(title, summary);
    }
  }

  /**
   * The medium keywords are searched as substrings, so "new" also matches
   * inside "news" or "renewed": an item mentioning news and no high keyword
   * is graded medium.
   */
  lemma {:induction false} NewsCountsAsMedium(title: string, summary: string, k: nat)
    requires k + 4 <= |title| && title[k..k + 4] == "news"
    requires !AnyOccurs(SignalText(title, summary), HighKeywords)
    ensures DetermineSignalLevel(title, summary) == Medium
  {
    var text := SignalText(title, summary);
    assert text[k] == Lower(title[k]) && text[k + 1] == Lower(title[k + 1]) && text[k + 2] == Lower(title[k + 2]);
    assert title[k] == 'n' && title[k + 1] == 'e' && title[k + 2] == 'w' by {
      assert title[k..k + 4][0] == title[k] && title[k..k + 4][1] == title[k + 1] && title[k..k + 4][2] == title[k + 2];
    }
    assert text[k..k + 3] == "new";
    assert OccursAt(text, MediumKeywords[5], k);
  }

  /** The grading ignores case: lower-casing title and summary first changes nothing. */
  lemma LevelIgnoresCase(title: string, summary: string)
    ensures DetermineSignalLevel(ToLower(title), ToLower(summary)) == DetermineSignalLevel(title, summary)
  {
    SignalTextParts(title, summary);
    SignalTextParts(ToLower(title), ToLower(summary));
    ToLowerIdempotent(title);
    ToLowerIdempotent(summary);
  }

  /** Appending to the summary never lowers the grade. */
  lemma LevelMonotoneInSummary(title: string, summary: string, extra: string)
    ensures DetermineSignalLevel(title, summary) == High ==> DetermineSignalLevel(title, summary + extra) == High
    ensures DetermineSignalLevel(title, summary) != Low ==> DetermineSignalLevel(title, summary + extra) != Low
  {
    var t1 := SignalText(title, summary);
    var t2 := SignalText(title, summary + extra);
    assert t2 == t1 + ToLower(extra) by {
      ToLowerAppend(title + " " + summary, extra);
      assert title + " " + (summary + extra) == (title + " " + summary) + extra;
    }
    forall w | Contains(t1, w) ensures Contains(t2, w) {
      ContainsExtended([], t1, ToLower(extra), w);
      assert [] + t1 + ToLower(extra) == t2;
    }
  }

  // ---------------------------------------------------------------------------
  // mapToNewsSignal

  /** A news-signal row ready to insert. */
  datatype NewsSignalInsert = NewsSignalInsert(
    outbreakId: string,
    source: string,
    title: string,
    summary: string,
    publishedAt: string,
    signalLevel: SignalLevel,
    createdAt: string)

  /**
   * One row. `isoDate` stands for re-printing a parsed date in ISO form and
   * `now` for the clock reading at mapping time.
   */
  function MapItem(item: ParsedNewsItem, outbreakId: string, isoDate: string -> string, now: string): (r: NewsSignalInsert)
    ensures r.outbreakId == outbreakId && r.source == item.source && r.title == item.title
    ensures r.summary == if item.summary == [] then item.title else item.summary
    ensures r.publishedAt == isoDate(item.publishedAt) && r.createdAt == now
    ensures r.signalLevel == DetermineSignalLevel(item.title, item.summary)
  {
    NewsSignalInsert(
      outbreakId,
      item.source,
      item.title,
      if item.summary == [] then item.title else item.summary,
      isoDate(item.publishedAt),
      DetermineSignalLevel(item.title, item.summary),
      now)
  }

  /** `mapToNewsSignal`: one row per item, in order, all for the same outbreak. */
  function MapToNewsSignal(items: seq<ParsedNewsItem>, outbreakId: string, isoDate: string -> string, now: string)
    : (r: seq<NewsSignalInsert>)
    ensures |r| == |items|
    ensures forall i :: 0 <= i < |items| ==> r[i] == MapItem(items[i], outbreakId, isoDate, now)
  {
    seq(|items|, i requires 0 <= i < |items| => MapItem(items[i], outbreakId, isoDate, now))
  }

  /** Mapping is item by item: mapping a concatenation is concatenating the mappings. */
  lemma MapAppend(a: seq<ParsedNewsItem>, b: seq<ParsedNewsItem>, outbreakId: string, isoDate: string -> string, now: string)
    ensures MapToNewsSignal(a + b, outbreakId, isoDate, now)
            == MapToNewsSignal(a, outbreakId, isoDate, now) + MapToNewsSignal(b, outbreakId, isoDate, now)
  {
  }

  /** The level is graded on the original summary, not on the title stored in its place. */
  lemma EmptySummaryGradedOnTitle(item: ParsedNewsItem, outbreakId: string, isoDate: string -> string, now: string)
    requires item.summary == []
    ensures var r := MapItem(item, outbreakId, isoDate, now);
            r.summary == item.title && r.signalLevel == DetermineSignalLevel(item.title, "")
  {
  }

  /** Every row mapped from items the WHO parser saves has a non-empty title and summary. */
  lemma ParsedItemsHaveSummaries(items: seq<ParsedNewsItem>, outbreakId: string, isoDate: string -> string, now: string)
    requires forall k :: 0 <= k < |items| ==> WellFormed(items[k])
    ensures forall k :: 0 <= k < |items| ==>
              var r := MapToNewsSignal(items, outbreakId, isoDate, now)[k];
              r.title != [] && r.summary != [] && r.source == WhoSource
  {
  }
}
