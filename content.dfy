/**
 * Content rules used by the moderation enforcer: search-text normalisation, the
 * banned-phrase search, media detection and the link search.
 */
module ContentRules {
  import opened Wrappers
  import opened Text
  import opened Message

  /** `normalizeSearchText`: white-space runs become one blank, then trim and lower-case. */
  function NormalizeSearchText(s: string): string {
    Lower(Trim(Collapse(s)))
  }

  /** The search form is trimmed, single-blank and lower-case, and empty exactly for a blank text. */
  lemma SearchTextShape(s: string)
    ensures var r := NormalizeSearchText(s);
      Trimmed(r) && SingleBlanks(r) && Lower(r) == r && (r == "" <==> AllSpace(s))
  {
    var c := Collapse(s);
    var t := Trim(c);
    CollapseAllSpace(s);
    TrimSingleBlanks(c);
    SingleBlanksLower(t);
    LowerIdempotent(t);
    assert t != [] ==> Lower(t)[0] == LowerChar(t[0]) && Lower(t)[|t| - 1] == LowerChar(t[|t| - 1]);
  }

  /** A text that is already trimmed, single-blank and lower-case is its own search form. */
  lemma SearchTextFixpoint(s: string)
    requires Trimmed(s) && SingleBlanks(s)
    ensures NormalizeSearchText(s) == Lower(s)
  {
    CollapseOfSingleBlanks(s);
    TrimOfTrimmed(s);
  }

  /** The search forms of the banned entries, in list order. */
  function Needles(words: seq<string>): (r: seq<string>)
    ensures |r| == |words| && forall k :: 0 <= k < |r| ==> r[k] == NormalizeSearchText(words[k])
  {
    seq(|words|, k requires 0 <= k < |words| => NormalizeSearchText(words[k]))
  }

  /** The search form `needle` of an entry matches the search text `hay`: it is non-empty and `hay` contains it. */
  predicate Hit(hay: string, needle: string) {
    needle != "" && Contains(hay, needle)
  }

  /** The position of the first needle from position `i` on that matches, in list order. */
  function FirstHit(hay: string, needles: seq<string>, i: nat): (r: Option<nat>)
    requires i <= |needles|
    ensures r.Some? ==> i <= r.value < |needles| && Hit(hay, needles[r.value])
    ensures r.Some? ==> forall k :: i <= k < r.value ==> !Hit(hay, needles[k])
    ensures r.None? <==> forall k :: i <= k < |needles| ==> !Hit(hay, needles[k])
    decreases |needles| - i
  {
    if i == |needles| then None
    else if Hit(hay, needles[i]) then Some(i)
    else FirstHit(hay, needles, i + 1)
  }

  /**
   * `findBannedWord`: the search form of the first banned entry whose search form
   * is non-empty and occurs in the search form of the text.
   */
  function FindBannedWord(text: string, words: seq<string>): (r: Option<string>)
    ensures AllSpace(text) ==> r.None?
    ensures r.Some? ==> r.value != "" && Contains(NormalizeSearchText(text), r.value)
    ensures r.Some? ==> exists i :: (0 <= i < |words| && r.value == NormalizeSearchText(words[i])
              && forall k :: 0 <= k < i ==> !Hit(NormalizeSearchText(text), NormalizeSearchText(words[k])))
    ensures r.None? <==> AllSpace(text) || forall k :: 0 <= k < |words| ==> !Hit(NormalizeSearchText(text), NormalizeSearchText(words[k]))
  {
    var hay := NormalizeSearchText(text);
    SearchTextShape(text);
    var needles := Needles(words);
    if hay == "" then None
    else
      match FirstHit(hay, needles, 0)
      case None => None
      case Some(i) => Some(needles[i])
  }

  /** What `detectMedia` reports. */
  datatype Media = Media(hasImage: bool, hasSticker: bool)

  /** `detectMedia`: whether the unwrapped message carries an image or a sticker. */
  function DetectMedia(m: Option<Msg>): (r: Media)
    ensures m.None? ==> r == Media(false, false)
    ensures m.Some? ==> (r.hasImage <==> Unwrap(m.value).image.Some?) && (r.hasSticker <==> Unwrap(m.value).hasSticker)
  {
    if m.None? then Media(false, false)
    else Media(Unwrap(m.value).image.Some?, Unwrap(m.value).hasSticker)
  }

  /** A match of the link pattern in a text: where it starts and how long it is. */
  datatype Span = Span(start: nat, len: nat)

  /** The link pattern, left abstract: the first match in a text, if any. */
  type LinkMatcher = string -> Option<Span>

  /** A pattern matcher only reports spans that lie inside the text. */
  ghost predicate MatcherInBounds(matcher: LinkMatcher) {
    forall t :: matcher(t).Some? ==> matcher(t).value.start + matcher(t).value.len <= |t|
  }

  /** `findFirstLink`: nothing for an empty text, otherwise the text of the pattern's first match. */
  function FindFirstLink(text: string, matcher: LinkMatcher): (r: Option<string>)
    requires MatcherInBounds(matcher)
    ensures text == "" ==> r.None?
    ensures text != "" ==> (r.Some? <==> matcher(text).Some?)
    ensures r.Some? ==> OccursAt(text, r.value, matcher(text).value.start)
  {
    if text == "" then None
    else
      match matcher(text)
      case None => None
      case Some(sp) => Some(text[sp.start..sp.start + sp.len])
  }

  /** Any link found is a piece of the text. */
  lemma FoundLinkIsSubstring(text: string, matcher: LinkMatcher)
    requires MatcherInBounds(matcher)
    requires FindFirstLink(text, matcher).Some?
    ensures Contains(text, FindFirstLink(text, matcher).value)
  {
    ContainsIffOccurs(text, FindFirstLink(text, matcher).value);
  }
}
