/**
 * The guard applied to generated text: a case-insensitive search for a fixed
 * list of prohibited phrases that reports the first phrase found, and the
 * trimming clean-up.
 */
module Safety {

  import opened Text

  /** The prohibited phrases, in the order they are tried. */
  const ProhibitedPhrases: seq<string> := [
    "diagnose",
    "treatment",
    "recommend taking",
    "you should",
    "consult your doctor",
    "cure",
    "therapy",
    "prescription",
    "i predict",
    "forecast suggests"
  ]

  /**
   * The outcome of a validation. An invalid result carries the phrase that
   * was found; `ReasonText` gives the message built around it.
   */
  datatype Validation = Valid | Invalid(phrase: string)

  function ReasonText(v: Validation): string
  {
    match v
    case Valid => ""
    case Invalid(phrase) =>
      "Contains prohibited phrase: \"" + phrase + "\". AI is restricted to observational language only."
  }

  /** `validateAiOutput` against a given phrase list. */
  function ValidateAgainst(phrases: seq<string>, text: string): (v: Validation)
    ensures v.Valid? <==> forall j :: 0 <= j < |phrases| ==> !Contains(ToLower(text), phrases[j])
    ensures v.Invalid? ==> exists i :: 0 <= i < |phrases| && v.phrase == phrases[i]
                                       && Contains(ToLower(text), phrases[i])
                                       && forall j :: 0 <= j < i ==> !Contains(ToLower(text), phrases[j])
  {
    match FirstOccurring(ToLower(text), phrases, 0)
    case None => Valid
    case Some(i) => Invalid(phrases[i])
  }

  /** `validateAiOutput`: valid exactly when no prohibited phrase occurs in the lower-cased text. */
  function ValidateAiOutput(text: string): (v: Validation)
    ensures v.Valid? <==> forall j :: 0 <= j < |ProhibitedPhrases| ==> !Contains(ToLower(text), ProhibitedPhrases[j])
    ensures v.Invalid? ==> exists i :: 0 <= i < |ProhibitedPhrases| && v.phrase == ProhibitedPhrases[i]
                                       && Contains(ToLower(text), ProhibitedPhrases[i])
                                       && forall j :: 0 <= j < i ==> !Contains(ToLower(text), ProhibitedPhrases[j])
  {
    ValidateAgainst(ProhibitedPhrases, text)
  }

  /** Matching ignores case: a text and its lower-cased form get the same verdict. */
  lemma ValidationIgnoresCase(phrases: seq<string>, text: string)
    ensures ValidateAgainst(phrases, text) == ValidateAgainst(phrases, ToLower(text))
  {
    ToLowerIdempotent(text);
  }

  /** A phrase that occurs makes the text invalid, and the reported phrase comes no later in the list. */
  lemma OccurringPhraseRejects(phrases: seq<string>, text: string, i: nat)
    requires i < |phrases| && Contains(ToLower(text), phrases[i])
    ensures ValidateAgainst(phrases, text).Invalid?
    ensures exists k :: 0 <= k <= i && ValidateAgainst(phrases, text).phrase == phrases[k]
  {
  }

  /** With no empty phrase in the list, the empty text is valid. */
  lemma EmptyTextIsValid(phrases: seq<string>)
    requires forall j :: 0 <= j < |phrases| ==> |phrases[j]| > 0
    ensures ValidateAgainst(phrases, "") == Valid
  {
    forall j | 0 <= j < |phrases| ensures !Contains(ToLower(""), phrases[j]) {
      assert ToLower("") == "";
    }
  }

  /** Every prohibited phrase is non-empty, so the empty text passes. */
  lemma EmptyAiOutputIsValid()
    ensures ValidateAiOutput("") == Valid
  {
    EmptyTextIsValid(ProhibitedPhrases);
  }

  /** `sanitizeResponse` */
  function SanitizeResponse(text: string): (r: string)
    ensures |r| <= |text|
    ensures exists i :: TrimmedAt(text, r, i)
    ensures r == [] || (!IsSpace(r[0]) && !IsSpace(r[|r| - 1]))
  {
    Trim(text)
  }

  /** Sanitizing twice is sanitizing once. */
  lemma SanitizeIdempotent(text: string)
    ensures SanitizeResponse(SanitizeResponse(text)) == SanitizeResponse(text)
  {
    TrimOfTrimmed(SanitizeResponse(text));
  }
}
