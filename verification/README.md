# Medlogy core, modelled in Dafny

Medlogy is an outbreak-surveillance dashboard. This project models its deterministic core and proves properties of that model:

- **Rules**: the rule-based analysis behind the insight engine. It covers the 7-point case-trend classifier, the sentiment aggregate of news signals and the additive confidence score.
- **Engine**: the insight composer that turns those outputs into ordered, fixed-template bullets.
- **Policy**: the policy matrix, a first-match decision list from risk level, trend and severity to a monitoring posture.
- **WhoParse**: the line-oriented state machine that reads WHO Disease Outbreak News markdown.
- **Mapper**: maps parsed items to news-signal rows, including the keyword-priority signal grading.
- **Safety**: the guard on generated text (a case-insensitive prohibited-phrase search) and its trimming clean-up.
- **Routes**: the route-protection rules of the session middleware, as a function of the path and whether a user is signed in.
- **Epidemiology**: the series builder of the epidemiology endpoint. It normalises `M/D/YY` date keys, defaults missing counts to zero and sorts in place by date string.
- **RssBlocks** and **PublicNews**: the RSS reader of the public news feed. It extracts `<item>` blocks, reads fields with lazy one-line patterns, prefers the CDATA forms, and cleans titles and snippets.

**Text** holds the JavaScript string operations these share:
- `toLowerCase`/`toUpperCase` on ASCII;
- `includes`, `startsWith` and `indexOf`;
- `trim`, over the ECMAScript white-space set;
- `split` and `join`;
- `padStart` and `substring`.

Modelling choices:
- Strings are `seq<char>`.
- Percentages are exact `real`s.
- The confidence score is an integer number of hundredths.
- Clock readings and date parsing are parameters: `now`, `isoDate` and `fallback`.

The pure code becomes functions with lemmas. The imperative code becomes methods proved against those functions:
- the sentiment counting loop;
- the step-by-step confidence score;
- the bullet-pushing composer;
- the WHO line scanner with its inner blank-skipping loop;
- the RSS `exec` loop;
- the in-place sort of the epidemiology series, on an `array`.

Two comments in the code promise more than the code does, and the model follows the code:
- The "approximate 7-day lookback" of the case trend is element `len-7` of the sorted series, six positions before the latest point.
- The "cap at 0.95" of the confidence score never applies: the largest score is 0.90.

## Model

| member | source | states |
|---|---|---|
| Rules.SortByDate | src/lib/analysis/rules.ts:14-15 | the defensive sort of a copy: same length, same multiset of points, ascending by date |
| Rules.InsertByDateSpec | src/lib/analysis/rules.ts:15 | one insertion step adds exactly the inserted point and keeps a sorted series sorted |
| Rules.InsertByDateStable | src/lib/analysis/rules.ts:15 | insertion keeps the relative order of points with equal dates (the sort is stable) |
| Rules.SortByDateStable | src/lib/analysis/rules.ts:15 | for each date, the points with that date keep their input order after sorting |
| Rules.SortByDateOfSorted | src/lib/analysis/rules.ts:15 | sorting an already sorted series changes nothing |
| Rules.SortedPermutationsEqual | src/lib/analysis/rules.ts:14-15 | two sorted permutations of a series with distinct dates are equal |
| Rules.DistinctDatesOfPermutation | src/lib/analysis/rules.ts:14-15 | distinct dates survive any permutation |
| Rules.CalculateCaseTrend | src/lib/analysis/rules.ts:9-33 | insufficient data with change 0 iff fewer than 7 points or a zero baseline; increasing iff change > 5, decreasing iff < -5, stable otherwise (bounds inclusive); change × baseline = (latest − baseline) × 100 |
| Rules.TrendOfSortedSeries | src/lib/analysis/rules.ts:15-18 | on a sorted series the latest point is the last and the baseline is element len-7 |
| Rules.CaseTrendPermutationInvariant | src/lib/analysis/rules.ts:14-15 | the caller's order does not matter: permutations with distinct dates give the same trend |
| Rules.IncreasingScenario | src/lib/analysis/rules.ts:25-31 | a week from 100 to 150 active cases is increasing by exactly 50% |
| Rules.FlatScenario | src/lib/analysis/rules.ts:25-31 | equal baseline and latest counts give stable with change 0 |
| Rules.CountLevelPositive | src/lib/analysis/rules.ts:44-49 | the high (or medium) counter is positive iff some signal has that level |
| Rules.CountLevelAppend | src/lib/analysis/rules.ts:44-47 | the counters add up over concatenated signal lists |
| Rules.CountLevelPermutation | src/lib/analysis/rules.ts:44-47 | the counters do not depend on the order of the signals |
| Rules.AnalyzeNewsSentiment | src/lib/analysis/rules.ts:38-53 | negative iff any high signal; mixed iff no high and more than 2 medium; neutral otherwise, including the empty list; never positive |
| Rules.Confidence | src/lib/analysis/rules.ts:64-77 | the score lies between 0.50 and 0.90 |
| Rules.CalculateConfidenceScore | src/lib/analysis/rules.ts:59-78 | the step-by-step score equals 0.5 + completeness + corroboration + research, under the cap |
| Rules.ConfidenceMonotone | src/lib/analysis/rules.ts:64-77 | more series points, news or research never lower the score |
| Rules.ConfidenceCapNeverBinds | src/lib/analysis/rules.ts:76-77 | every score stays below the 0.95 cap, and 0.90 is reached |
| Engine.Round | src/lib/analysis/engine.ts:29 | `Math.round` gives the integer within half a unit, halves rounding up |
| Engine.GenerateInsightBullets | src/lib/analysis/engine.ts:14-68 | 3 bullets, plus a fourth iff research exists, so the cap at five never cuts; trend bullet by direction with the rounded magnitude; media bullet "no signals" without news, otherwise by sentiment; active-monitoring risk wording iff critical or high; research bullet with the count; confidence equals the confidence score |
| Engine.ReportedChangeAtLeastFive | src/lib/analysis/engine.ts:28-31 | an increase or decrease is always printed as at least 5% |
| Engine.StableAtExactlyFivePercent | src/lib/analysis/engine.ts:32-33 | a change of exactly ±5% takes the "(<5% change)" stable bullet |
| Policy.CalculatePolicyStatus | src/lib/policy/matrix.ts:23-107 | red iff critical; orange iff high and (increasing or severity > 5); yellow iff high otherwise, or medium/other and increasing; green iff medium/other and not increasing; level agrees with code; 3 actions iff active response, else 2 |
| Policy.CriticalIsAlwaysRed | src/lib/policy/matrix.ts:25-36 | critical gives red, active response and the EOC action for every trend and severity |
| Policy.SeverityMattersOnlyForHigh | src/lib/policy/matrix.ts:38-49 | the severity score changes the result only for the high risk level |
| Policy.UrgencyMonotoneInSeverity | src/lib/policy/matrix.ts:38-59 | a higher severity never lowers the advisory code |
| Policy.UrgencyMonotoneInTrend | src/lib/policy/matrix.ts:23-107 | an increasing trend never gives a lower advisory code than any other trend |
| Policy.UnknownRiskActsAsLow | src/lib/policy/matrix.ts:85-106 | every risk string other than critical, high and medium is treated as low |
| Policy.PinnedCases | src/lib/policy/matrix.test.ts:5-44 | the four pinned rows: critical red/active with EOC, high increasing orange, high stable yellow, low stable green |
| WhoParse.FirstLinkSplit | src/lib/ingestion/parse.ts:42 | the first `](` split at or after a position at which the line reads as a one-line link |
| WhoParse.LinkMatchSpec | src/lib/ingestion/parse.ts:42 | a trimmed line matches iff it is `[title](url)` with both parts on one line; the title is the shortest possible (lazy group) |
| WhoParse.DateMatchAt | src/lib/ingestion/parse.ts:32 | a date match at a position exists iff a `\d{1,2}\s+[A-Za-z]+\s+\d{4}` span starts there |
| WhoParse.ShapedIsGreedy | src/lib/ingestion/parse.ts:32 | every date-shaped span at a position is the greedy one: day, gaps and month take as much as they can |
| WhoParse.FindDate | src/lib/ingestion/parse.ts:32-52 | the leftmost date-shaped span, or none when no position starts one |
| WhoParse.DateText | src/lib/ingestion/parse.ts:66 | the captured date text starts with a digit, ends in four digits and is at least 8 long |
| WhoParse.NextNonBlank | src/lib/ingestion/parse.ts:47-48 | the first non-blank line at or after a position, skipping only blank lines |
| WhoParse.SkipBlank | src/lib/ingestion/parse.ts:47-48 | the inner while loop stops at that line |
| WhoParse.StartAt | src/lib/ingestion/parse.ts:42-54 | an item starts only at a link line whose next non-blank line holds a date |
| WhoParse.StartAtLink | src/lib/ingestion/parse.ts:42-68 | a link line followed by a dated line starts an item with that title, the resolved url and the date text |
| WhoParse.DetectStart | src/lib/ingestion/parse.ts:42-54 | the imperative detection agrees with StartAt |
| WhoParse.Step | src/lib/ingestion/parse.ts:36-85 | one iteration always advances the line index |
| WhoParse.StepBlank | src/lib/ingestion/parse.ts:38 | a blank line changes nothing |
| WhoParse.StepStart | src/lib/ingestion/parse.ts:55-72 | a new item saves the pending one, resets the buffer, starts capturing and resumes after the date line |
| WhoParse.StepOther | src/lib/ingestion/parse.ts:77-84 | any other line is ignored when not capturing, ends the capture when it is a link or navigation line, and is buffered otherwise |
| WhoParse.ReadLine | src/lib/ingestion/parse.ts:36-85 | one imperative iteration computes exactly Step |
| WhoParse.StartItem | src/lib/ingestion/parse.ts:55-72 | the imperative item start computes exactly Step |
| WhoParse.CaptureLine | src/lib/ingestion/parse.ts:77-84 | the imperative capture computes exactly Step |
| WhoParse.RunStep | src/lib/ingestion/parse.ts:36-85 | the scan from a line equals the scan from where its step resumes |
| WhoParse.ParseWhoNews | src/lib/ingestion/parse.ts:21-94 | the loop's items are those of the line scan over the `\n`-split page; each is well formed; there are no more items than item starts |
| WhoParse.ResolvedUrlOk | src/lib/ingestion/parse.ts:65 | a url is kept when it starts with `http`, else it is prefixed with the WHO origin |
| WhoParse.FlushOk | src/lib/ingestion/parse.ts:57-59 | saving the pending item keeps every saved item well formed: non-empty title, WHO source, summary of at most 500 chars |
| WhoParse.StepOk | src/lib/ingestion/parse.ts:36-85 | each step preserves the scanner's invariant |
| WhoParse.ItemsWellFormed | src/lib/ingestion/parse.ts:57-90 | every emitted item is well formed; items with an empty title are never emitted |
| WhoParse.StartCountMonotone | src/lib/ingestion/parse.ts:54 | fewer lines hold fewer item starts |
| WhoParse.StepCount | src/lib/ingestion/parse.ts:55-72 | a step never adds an item without consuming an item start |
| WhoParse.ItemCountBound | src/lib/ingestion/parse.ts:54-90 | the output has at most as many items as link+date starts |
| WhoParse.ProseIsCaptured | src/lib/ingestion/parse.ts:77-89 | while capturing, ordinary lines all go into the summary buffer |
| WhoParse.IdleLinesIgnored | src/lib/ingestion/parse.ts:77 | when not capturing, lines that start no item are ignored |
| WhoParse.StopLineEndsSummary | src/lib/ingestion/parse.ts:79-80 | a "Read more"/"See all" or link line ends the summary, and later lines are ignored until a new item |
| WhoParse.PageStartsWithItem | src/lib/ingestion/parse.ts:42-72 | a page opening with a link and a date line starts capturing right after the date |
| WhoParse.SingleItem | src/lib/ingestion/parse.ts:21-94 | link, date, then prose lines yield exactly one item: trimmed prose joined by spaces and cut to 500 chars, the date text, the WHO source and the resolved url |
| Mapper.DetermineSignalLevel | src/lib/ingestion/mapper.ts:29-57 | high iff a high keyword occurs in the lower-cased "title summary"; medium iff none does and a medium keyword does; low otherwise |
| Mapper.ContainsExtended | src/lib/ingestion/mapper.ts:30 | a keyword found in the title or the summary is found in the joined text |
| Mapper.SignalTextParts | src/lib/ingestion/mapper.ts:30 | the searched text is the lower-cased title, a space and the lower-cased summary |
| Mapper.HighKeywordMakesHigh | src/lib/ingestion/mapper.ts:33-41 | a high keyword in title or summary, in any case, makes the signal high |
| Mapper.NewsCountsAsMedium | src/lib/ingestion/mapper.ts:45-53 | "news" contains "new", so it grades an item medium when no high keyword occurs |
| Mapper.LevelIgnoresCase | src/lib/ingestion/mapper.ts:30 | lower-casing the inputs first does not change the grade |
| Mapper.LevelMonotoneInSummary | src/lib/ingestion/mapper.ts:33-56 | a longer summary never lowers the grade |
| Mapper.MapItem | src/lib/ingestion/mapper.ts:11-23 | the row copies outbreak id, source and title, falls back to the title for an empty summary, and grades the original title and summary |
| Mapper.MapAppend | src/lib/ingestion/mapper.ts:11 | mapping is item by item: it distributes over concatenation |
| Mapper.EmptySummaryGradedOnTitle | src/lib/ingestion/mapper.ts:12-18 | an empty summary is replaced by the title, but the grade uses the empty summary |
| Mapper.ParsedItemsHaveSummaries | src/lib/ingestion/mapper.ts:18 | rows mapped from parsed WHO items have a non-empty title and summary and the WHO source |
| Safety.ValidateAgainst | src/lib/ai/safety.ts:20-33 | valid iff no phrase occurs in the lower-cased text; when invalid, the phrase is the first in list order that occurs |
| Safety.ValidateAiOutput | src/lib/ai/safety.ts:7-33 | the same, for the fixed prohibited-phrase list |
| Safety.ValidationIgnoresCase | src/lib/ai/safety.ts:21 | "You Should" is judged as "you should": the result ignores case |
| Safety.OccurringPhraseRejects | src/lib/ai/safety.ts:23-29 | a text holding a phrase is rejected, naming that phrase or an earlier one |
| Safety.EmptyTextIsValid | src/lib/ai/safety.ts:32 | the empty text passes any list of non-empty phrases |
| Safety.EmptyAiOutputIsValid | src/lib/ai/safety.ts:7-33 | the empty text passes the prohibited-phrase list |
| Safety.SanitizeResponse | src/lib/ai/safety.ts:35-38 | trimming returns a slice of the text with only white space cut off either side, never longer |
| Safety.SanitizeIdempotent | src/lib/ai/safety.ts:35-38 | sanitizing twice is sanitizing once |
| Routes.RouteDecision | src/lib/supabase/middleware.ts:39-56 | public paths pass; redirect to /login iff no user, non-public and a dashboard prefix; otherwise pass |
| Routes.LoginPagesArePublic | src/lib/supabase/middleware.ts:42-54 | /login and /signup are both public paths |
| Routes.SignedInAlwaysPasses | src/lib/supabase/middleware.ts:47-56 | a signed-in user always passes: the redirect to /analysis never happens |
| Routes.SignedInUserOnLoginPasses | src/lib/supabase/middleware.ts:52-54 | a signed-in user on /login or /signup is let through |
| Routes.PublicPathsIgnoreUser | src/lib/supabase/middleware.ts:42-44 | public paths pass whatever the user state |
| Routes.DashboardPrefixProtected | src/lib/supabase/middleware.ts:47-49 | any path starting with /reports redirects to /login without a user |
| Routes.RouteDecisionIntended | src/lib/supabase/middleware.ts:51-54 | with the sign-in redirect first: redirect to /analysis iff a user is on /login or /signup; the /login redirect is unchanged |
| Routes.IntendedAgreesElsewhere | src/lib/supabase/middleware.ts:39-56 | the two orders differ only for a signed-in user on a sign-in page |
| Routes.RedirectsSettle | src/lib/supabase/middleware.ts:47-54 | following a redirect with the same user reaches a page that passes, in both orders |
| Epidemiology.NormalizeDate | src/app/api/epidemiology/route.ts:15-24 | a key that does not split into three parts uses the fallback; a 3-part key gives a "20"-prefixed string of length at least 8 |
| Epidemiology.NormalizeThreeParts | src/app/api/epidemiology/route.ts:16-21 | `M/D/YY` becomes "20" + YY + "-" + pad2(M) + "-" + pad2(D), with the year part verbatim |
| Epidemiology.PadKeepsLongParts | src/app/api/epidemiology/route.ts:18-19 | padding never truncates: parts of two or more characters are kept whole |
| Epidemiology.PadTwoDigits | src/app/api/epidemiology/route.ts:18-19 | a one- or two-digit part pads to exactly two digits |
| Epidemiology.NormalizedIsIso | src/app/api/epidemiology/route.ts:16-21 | one- or two-digit month and day with a two-digit year give `YYYY-MM-DD` |
| Epidemiology.NormalizeExample | src/app/api/epidemiology/route.ts:16-21 | "1/22/20" becomes "2020-01-22" |
| Epidemiology.SlashFreeKeyUsesFallback | src/app/api/epidemiology/route.ts:23 | a key without a slash goes to the date-parsing fallback |
| Epidemiology.PointFor | src/app/api/epidemiology/route.ts:27-34 | the point has the normalised date, counts read with `\|\| 0`, and zero hospitalised and positivity |
| Epidemiology.EpiPoints | src/app/api/epidemiology/route.ts:12-35 | one point per key, in key order: point i carries the normalised date of key i, its cases, deaths and recovered counts (0 where the table lacks the key), and zero hospitalised and positivity |
| Epidemiology.CountsDefaultToZero | src/app/api/epidemiology/route.ts:29-31 | a present count is copied; a missing deaths or recovered count is 0 |
| Epidemiology.DateLeTotal | src/app/api/epidemiology/route.ts:38 | the date-string order is total |
| Epidemiology.DateLeTransitive | src/app/api/epidemiology/route.ts:38 | the date-string order is transitive |
| Epidemiology.DateLeAntisymmetric | src/app/api/epidemiology/route.ts:38 | the date-string order is antisymmetric |
| Epidemiology.InsertByDateSpec | src/app/api/epidemiology/route.ts:38 | an insertion adds exactly the inserted point |
| Epidemiology.InsertByDateSorted | src/app/api/epidemiology/route.ts:38 | an insertion keeps a sorted series sorted |
| Epidemiology.SortByDateSpec | src/app/api/epidemiology/route.ts:38 | the sorted series has the same points and is ascending by date string |
| Epidemiology.InsertByDateStable | src/app/api/epidemiology/route.ts:38 | an inserted point goes after every point already there with the same date string |
| Epidemiology.SortByDateStable | src/app/api/epidemiology/route.ts:38 | the sort is stable: keys that normalise to the same date string (such as `1/2/20` and `01/02/20`) keep their key order |
| Epidemiology.SortByDateStep | src/app/api/epidemiology/route.ts:38 | sorting one more point inserts it into the sorted prefix |
| Epidemiology.InsertAt | src/app/api/epidemiology/route.ts:38 | the insertion lands after the last point not later than it |
| Epidemiology.InsertInPlace | src/app/api/epidemiology/route.ts:38 | shifting in place inserts element i into the sorted prefix and leaves the rest of the array alone |
| Epidemiology.ShiftLater | src/app/api/epidemiology/route.ts:38 | the shifting loop moves exactly the prefix elements later than the new point up one place and returns the gap where it belongs |
| Epidemiology.SortInPlace | src/app/api/epidemiology/route.ts:38 | the in-place sort leaves the array equal to SortByDate of its old contents |
| Epidemiology.BuildEpiData | src/app/api/epidemiology/route.ts:12-38 | a fresh array holding the mapped points sorted by date |
| Epidemiology.EpiDataSpec | src/app/api/epidemiology/route.ts:12-38 | the result has one point per key, the same points, ascending dates, and zero hospitalised and positivity everywhere |
| RssBlocks.NextBlock | src/lib/data/public_news.ts:12-15 | the next block opens at the leftmost `<item>` at or after the scan position and closes at the first `</item>` after that tag; there is no block exactly when no `<item>` from the scan position on is followed by a `</item>` |
| RssBlocks.ContentHasNoClose | src/lib/data/public_news.ts:12 | a block's content never contains `</item>`: the lazy group stops at the first close |
| RssBlocks.BlocksEndAtFirstClose | src/lib/data/public_news.ts:12-15 | no extracted block contains `</item>` |
| RssBlocks.BlocksStep | src/lib/data/public_news.ts:15-16 | the blocks are the next block's content followed by the blocks after its close |
| RssBlocks.SomesBound | src/lib/data/public_news.ts:22-29 | keeping only the parsed items never lengthens the list |
| RssBlocks.SomesMember | src/lib/data/public_news.ts:22-29 | every kept item was parsed from some block |
| RssBlocks.SomesAppend | src/lib/data/public_news.ts:22-29 | the kept items of a concatenation are the concatenation of the kept items |
| RssBlocks.Parsed | src/lib/data/public_news.ts:15-21 | one parse result per block |
| RssBlocks.ParsedAt | src/lib/data/public_news.ts:16-21 | result i is the parse of block i |
| RssBlocks.ParsedAppend | src/lib/data/public_news.ts:15-21 | parsing distributes over concatenation |
| RssBlocks.ScanIsCollect | src/lib/data/public_news.ts:15-30 | the block-by-block scan keeps the same items, in order, as parsing every block and keeping the hits |
| PublicNews.CaptureAtSpec | src/lib/data/public_news.ts:17-20 | a match at a position is the text up to the first close tag, which no earlier position closes |
| PublicNews.CaptureAtFound | src/lib/data/public_news.ts:17-20 | an open tag followed on the same line by a close tag matches |
| PublicNews.CaptureFromFound | src/lib/data/public_news.ts:17-20 | the search returns the match at the first matching position |
| PublicNews.CaptureFromNone | src/lib/data/public_news.ts:17-20 | when the search fails, no later position matches |
| PublicNews.CaptureIffPresent | src/lib/data/public_news.ts:17-20 | a field is captured iff its tags enclose a one-line text somewhere |
| PublicNews.CaptureIsLeftmost | src/lib/data/public_news.ts:17-20 | the capture is the leftmost match, on one line, ended by the first close tag |
| PublicNews.CdataTitleIsAlsoPlain | src/lib/data/public_news.ts:17 | a CDATA title also matches the plain title pattern |
| PublicNews.CdataTitleTags | src/lib/data/public_news.ts:17 | the CDATA title tags contain the plain ones |
| PublicNews.ItemIffTitleAndLink | src/lib/data/public_news.ts:17-22 | a block yields an item iff it holds a title and a link, each on one line |
| PublicNews.CdataPreferred | src/lib/data/public_news.ts:17-24 | the CDATA title wins when present, else the plain one, trimmed |
| PublicNews.MissingFieldsDefault | src/lib/data/public_news.ts:26-27 | a missing date becomes the clock reading; a missing description becomes "" |
| PublicNews.ItemFieldsTrimmed | src/lib/data/public_news.ts:24-27 | title, link and description are trimmed |
| PublicNews.CollectAppend | src/lib/data/public_news.ts:15-30 | the items of concatenated blocks are the concatenated items |
| PublicNews.ParseRss | src/lib/data/public_news.ts:10-32 | the `exec` loop returns the items of the feed's blocks, in document order |
| PublicNews.CollectFromBlocks | src/lib/data/public_news.ts:22-29 | every returned item is the parse of one of the blocks |
| PublicNews.ParsedFeedSpec | src/lib/data/public_news.ts:22-29 | no more items than blocks; every title and link is trimmed |
| PublicNews.MarkerFreeTail | src/lib/data/public_news.ts:65 | a text free of CDATA markers stays free of them without its first character |
| PublicNews.StripMarkersShorter | src/lib/data/public_news.ts:65 | removing CDATA markers never lengthens the title |
| PublicNews.StripBeforeEnd | src/lib/data/public_news.ts:65 | a marker-free text followed by `]]>` strips to the text |
| PublicNews.UnwrapCdata | src/lib/data/public_news.ts:65 | `<![CDATA[t]]>` strips to t for marker-free t |
| PublicNews.StripMarkersOfMarkerFree | src/lib/data/public_news.ts:65 | a marker-free title is unchanged |
| PublicNews.IndexOfChar | src/lib/data/public_news.ts:69 | the first occurrence of a character at or after a position, or none |
| PublicNews.StripTagsSpec | src/lib/data/public_news.ts:69 | stripping tags never lengthens the text and leaves no `<…>` tag |
| PublicNews.StripTagsOfTagFree | src/lib/data/public_news.ts:69 | a tag-free text is unchanged |
| PublicNews.StripTagsKeepsPrefix | src/lib/data/public_news.ts:69 | text before the first `<` is kept as it is |
| PublicNews.StripTagsKeepsText | src/lib/data/public_news.ts:69 | for `a<u>rest` with no `<` in a and no `>` in u, the result is a followed by the stripping of rest: text outside tags survives and the tag is deleted |
| PublicNews.CleanTitleSpec | src/lib/data/public_news.ts:65 | the clean title is no longer than the title, and equal to it when marker-free |
| PublicNews.SnippetSpec | src/lib/data/public_news.ts:69 | the snippet is tag-free and at most 500 long, and a short tag-free description is kept whole |
| PublicNews.ToPublicNews | src/lib/data/public_news.ts:64-70 | url, source and date are carried over; the title is no longer than the parsed one and unchanged when it has no CDATA marker; the snippet is tag-free, at most 500 long, and the description itself when that is tag-free and fits |
| PublicNews.StoredTitleUnwrapsCdata | src/lib/data/public_news.ts:65 | a title `<![CDATA[t]]>` with marker-free t is stored as t |
| PublicNews.StoredSnippetKeepsText | src/lib/data/public_news.ts:69 | a description `a<u>rest` is stored as the first 500 characters of a followed by the stripping of rest |
| Text.ToLower | src/lib/ingestion/mapper.ts:30 | same length, no capital A–Z left, each capital replaced by its small letter and every other character kept in place |
| Text.ToUpper | src/lib/analysis/engine.ts:53 | same length, no small a–z left, each small letter replaced by its capital and every other character kept in place |
| Text.ToLowerIdempotent | src/lib/ai/safety.ts:21 | lower-casing twice is lower-casing once |
| Text.ToLowerAppend | src/lib/ingestion/mapper.ts:30 | lower-casing distributes over concatenation |
| Text.FirstOccurring | src/lib/ai/safety.ts:22-31 | the index of the first word in list order that occurs in the text, or none |
| Text.IndexOf | src/lib/data/public_news.ts:12 | the first occurrence of a pattern at or after a position, or none |
| Text.Trim | src/lib/ai/safety.ts:37 | `trim` keeps a slice of the text that neither starts nor ends with white space, cutting only white space |
| Text.TrimOfTrimmed | src/lib/ai/safety.ts:37 | a text without white space at either end is its own trim |
| Text.Take | src/lib/ingestion/parse.ts:58 | `substring(0, n)` keeps the first n characters, or the whole text when it is shorter |
| Text.Split | src/lib/ingestion/parse.ts:25 | `split` gives at least one piece, and no piece holds the separator |
| Text.JoinSplit | src/lib/ingestion/parse.ts:25 | joining the pieces with the separator gives back the text |
| Text.PadStart | src/app/api/epidemiology/route.ts:18-19 | `padStart` keeps the text as a suffix, fills only on the left and never truncates |
| Text.NatToString | src/lib/analysis/engine.ts:29 | a number prints as decimal digits only, whose value is the number, with no leading zero (only 0 itself starts with `0`) |

## Left out

- Rules.CalculateCaseTrend: dates are integer sort keys, standing for `new Date(date).getTime()`. Unparseable dates (NaN comparisons) are not modelled. A `null` series cannot be expressed, and the empty series stands for it.
- Rules.Confidence: the score is kept in exact hundredths. The floating-point sums (0.5 + 0.2 + 0.1 + 0.1) and `Math.min` on IEEE doubles are not modelled.
- Engine.GenerateInsightBullets: the `generated_at` timestamp is dropped. Outbreak risk levels are the four enum values of the data model, not free strings.
- Engine.GenerateInsightBullets: the promise that its bullets avoid predictive or diagnostic language (no rendered sentence contains a Safety phrase) is not proved. The solver cannot index into fixed sentences of 50 to 110 characters, so refuting each of the ten phrases in each of the eleven templates would need every sentence hand-split into short pieces.
- Policy: nothing in the analysis pipeline calls the matrix, so the model does not connect it to the insight engine.
- WhoParse.ParseWhoNews, Safety, Mapper: `toLowerCase`/`toUpperCase` are modelled on ASCII letters only. JavaScript strings are UTF-16 code units, while `char` here is a Unicode scalar value, so the 500-character limits count scalar values.
- Mapper.MapItem: `new Date(published_at).toISOString()` is the `isoDate` parameter and `created_at` is the `now` parameter. The RangeError thrown for an invalid date is not modelled.
- Epidemiology.NormalizeDate: the non-3-part branch `new Date(d).toISOString().split('T')[0]` is the `fallback` parameter. The exception it throws for an invalid date, caught by the handler as an HTTP 500, is not modelled.
- Epidemiology.DateLe: `localeCompare` is approximated by code-unit lexicographic order. They agree on the digit-and-dash strings the normaliser produces, not on arbitrary text.
- Epidemiology.EpiPoints: the enumeration order of `Object.keys(timeline.cases)` is the given `dates` sequence. `|| 0` is modelled for absent keys, and non-numeric counts are not modelled.
- Epidemiology: the fetch of historical data and the JSON response are I/O and are left out.
- PublicNews.ParseRss: each item's missing `pubDate` becomes the single clock reading `now`. Separate `new Date()` calls per item may differ by milliseconds.
- PublicNews.ToPublicNews: `new Date(pubDate).toISOString()` is the `isoDate` parameter.
- PublicNews: `parseWHOIndex` is not modelled. Its single regex with three lazy gaps spanning lines has backtracking behaviour that is hard to state faithfully.
- PublicNews: the network fetch in `fetchAndParseRSS`, its error path returning `[]`, `enrichNewsItem` and `ingestGlobalHealthNews` are I/O and AI calls.
- Routes.RouteDecision: the cookie and session handling of the middleware (`middleware.ts:5-36`) is left out. The signed-in user is the boolean `hasUser`.
- Not modelled:
  - the analysis pipeline's orchestration;
  - Supabase data access and mutations;
  - the AI clients and prompts;
  - the React components.
  They are I/O, foreign library calls or rendering.

## Findings

| source | as written | input that shows it | evidently intended | confidence | as-written member | corrected member |
|---|---|---|---|---|---|---|
| src/lib/supabase/middleware.ts:42-54 | the public-route rule passes "/login" and "/signup" before the rule "redirect authenticated users away from login" is reached, so that redirect can never fire | path "/login" with a signed-in user: the request passes and the user stays on the sign-in page | a signed-in user on "/login" or "/signup" is redirected to "/analysis" | high (not executed) | Routes.SignedInAlwaysPasses | Routes.RouteDecisionIntended |
