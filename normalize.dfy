/**
 * Normalisation of the persisted store document: the allowlist, and per group
 * the bans, moderation switches, welcome settings, banned phrases and mutes.
 * Every raw value the document may hold is accepted; whatever is malformed is
 * dropped or replaced by its default.
 */
module Normalize {
  import opened Wrappers
  import opened Text
  import opened Seqs
  import opened Jid
  import opened JsonValue

  const StoreVersion: nat := 5
  const DefaultWelcomeTemplate: string := "👋 مرحبًا {user}!\n\nأهلًا بك في المجموعة.\n\n{rules}"
  const MaxWelcomeTemplateChars: nat := 2000

  // ----- banned phrases -------------------------------------------------------

  /** A stored banned phrase: non-empty, trimmed, and its only white space is single blanks. */
  predicate IsPhrase(s: string) {
    s != "" && Trimmed(s) && SingleBlanks(s)
  }

  /** `normalizeBannedWord`: trim, nothing for a blank text, white-space runs become one blank. */
  function NormalizeBannedWord(value: string): (r: Option<string>)
    ensures r.None? <==> AllSpace(value)
    ensures r.Some? ==> IsPhrase(r.value)
  {
    var v := Trim(value);
    if v == "" then None
    else
      var c := Collapse(v);
      assert Trimmed(c);
      Some(c)
  }

  /** A phrase is its own normal form, so normalising twice changes nothing. */
  lemma BannedWordOfPhrase(s: string)
    requires IsPhrase(s)
    ensures NormalizeBannedWord(s) == Some(s)
  {
    TrimOfTrimmed(s);
    CollapseOfSingleBlanks(s);
  }

  lemma BannedWordIdempotent(s: string)
    requires NormalizeBannedWord(s).Some?
    ensures NormalizeBannedWord(NormalizeBannedWord(s).value) == NormalizeBannedWord(s)
  {
    BannedWordOfPhrase(NormalizeBannedWord(s).value);
  }

  /** The case-insensitive keys of a list of phrases. */
  function Keys(ws: seq<string>): (r: seq<string>)
    ensures |r| == |ws| && forall k :: 0 <= k < |ws| ==> r[k] == Lower(ws[k])
  {
    seq(|ws|, k requires 0 <= k < |ws| => Lower(ws[k]))
  }

  /** A list of stored banned phrases: each a phrase, no two equal ignoring case. */
  predicate ValidWords(ws: seq<string>) {
    (forall k :: 0 <= k < |ws| ==> IsPhrase(ws[k])) && NoDup(Keys(ws))
  }

  /** The phrase a raw list element stands for (`normalizeBannedWord(String(raw ?? ''))`). */
  function WordOf(v: Json): Option<string> {
    NormalizeBannedWord(TextOrEmpty(Some(v)))
  }

  /** The phrase of every raw list element, in order. */
  function Phrases(list: seq<Json>): (r: seq<Option<string>>)
    ensures |r| == |list| && forall k :: 0 <= k < |list| ==> r[k] == WordOf(list[k])
  {
    seq(|list|, k requires 0 <= k < |list| => WordOf(list[k]))
  }

  /** Every present phrase is a phrase. */
  predicate AllPhrases(os: seq<Option<string>>) {
    forall k :: 0 <= k < |os| && os[k].Some? ==> IsPhrase(os[k].value)
  }

  lemma PhrasesArePhrases(list: seq<Json>)
    ensures AllPhrases(Phrases(list))
  {
  }

  /** The present phrases in order, each kept only if no earlier kept phrase has its lower-case key. */
  function Uniq(os: seq<Option<string>>): seq<string> {
    if os == [] then []
    else
      var p := Uniq(os[..|os| - 1]);
      match os[|os| - 1]
      case None => p
      case Some(v) => if Lower(v) in Keys(p) then p else p + [v]
  }

  /** `uniqBannedWords` as a specification. */
  function UniqWords(list: seq<Json>): seq<string> {
    Uniq(Phrases(list))
  }

  /** The result holds phrases, no two equal ignoring case. */
  lemma {:induction false} UniqValid(os: seq<Option<string>>)
    requires AllPhrases(os)
    ensures ValidWords(Uniq(os))
    decreases |os|
  {
    if os != [] {
      var init := os[..|os| - 1];
      assert AllPhrases(init) by {
        assert forall k :: 0 <= k < |init| ==> init[k] == os[k];
      }
      UniqValid(init);
      var p := Uniq(init);
      if os[|os| - 1].Some? && Lower(os[|os| - 1].value) !in Keys(p) {
        assert Keys(p + [os[|os| - 1].value]) == Keys(p) + [Lower(os[|os| - 1].value)];
      }
    }
  }

  /** Every kept phrase is the phrase of some element. */
  lemma {:induction false} UniqSound(os: seq<Option<string>>, k: nat)
    requires k < |Uniq(os)|
    ensures exists i :: 0 <= i < |os| && os[i] == Some(Uniq(os)[k])
    decreases |os|
  {
    var init := os[..|os| - 1];
    var p := Uniq(init);
    if k < |p| {
      UniqSound(init, k);
      var i :| 0 <= i < |init| && init[i] == Some(p[k]);
      assert os[i] == init[i];
    } else {
      assert os[|os| - 1] == Some(Uniq(os)[k]);
    }
  }

  /** Every element that has a phrase is represented, ignoring case, in the result. */
  lemma {:induction false} UniqComplete(os: seq<Option<string>>, i: nat)
    requires i < |os| && os[i].Some?
    ensures Lower(os[i].value) in Keys(Uniq(os))
    decreases |os|
  {
    var init := os[..|os| - 1];
    var p := Uniq(init);
    var r := Uniq(os);
    if i < |os| - 1 {
      assert init[i] == os[i];
      UniqComplete(init, i);
      var k :| 0 <= k < |p| && Keys(p)[k] == Lower(os[i].value);
      assert r[k] == p[k];
    } else if Lower(os[i].value) !in Keys(p) {
      assert r[|p|] == os[i].value;
    }
  }

  /** A list of phrases as the raw JSON array that holds them. */
  function Strings(xs: seq<string>): (r: seq<Json>)
    ensures |r| == |xs| && forall k :: 0 <= k < |xs| ==> r[k] == JStr(xs[k])
  {
    seq(|xs|, k requires 0 <= k < |xs| => JStr(xs[k]))
  }

  /** The phrases of a stored list are the list itself. */
  lemma PhrasesOfWords(ws: seq<string>)
    requires forall k :: 0 <= k < |ws| ==> IsPhrase(ws[k])
    ensures Phrases(Strings(ws)) == seq(|ws|, k requires 0 <= k < |ws| => Some(ws[k]))
  {
    forall k | 0 <= k < |ws| ensures WordOf(JStr(ws[k])) == Some(ws[k]) {
      BannedWordOfPhrase(ws[k]);
    }
  }

  /** Present phrases without two equal keys are kept as they are. */
  lemma {:induction false} UniqOfDistinct(ws: seq<string>)
    requires NoDup(Keys(ws))
    ensures Uniq(seq(|ws|, k requires 0 <= k < |ws| => Some(ws[k]))) == ws
    decreases |ws|
  {
    if ws != [] {
      var init := ws[..|ws| - 1];
      var os := seq(|ws|, k requires 0 <= k < |ws| => Some(ws[k]));
      assert Keys(init) == Keys(ws)[..|ws| - 1];
      UniqOfDistinct(init);
      assert os[..|ws| - 1] == seq(|init|, k requires 0 <= k < |init| => Some(init[k]));
      assert Lower(ws[|ws| - 1]) !in Keys(init) by {
        assert Keys(ws)[|ws| - 1] == Lower(ws[|ws| - 1]);
      }
      assert init + [ws[|ws| - 1]] == ws;
    }
  }

  /** A stored list of banned phrases survives `uniqBannedWords` unchanged. */
  lemma UniqWordsOfValid(ws: seq<string>)
    requires ValidWords(ws)
    ensures UniqWords(Strings(ws)) == ws
  {
    PhrasesOfWords(ws);
    UniqOfDistinct(ws);
  }

  lemma UniqStep(os: seq<Option<string>>, i: nat)
    requires i < |os|
    ensures Uniq(os[..i + 1]) == match os[i]
      case None => Uniq(os[..i])
      case Some(v) => if Lower(v) in Keys(Uniq(os[..i])) then Uniq(os[..i]) else Uniq(os[..i]) + [v]
  {
    assert os[..i + 1][..i] == os[..i];
  }

  lemma KeysSnoc(ws: seq<string>, w: string)
    ensures Keys(ws + [w]) == Keys(ws) + [Lower(w)]
    ensures Elems(Keys(ws + [w])) == Elems(Keys(ws)) + {Lower(w)}
  {
    assert Keys(ws + [w]) == Keys(ws) + [Lower(w)];
  }

  /** `uniqBannedWords`: the loop over the raw list with its set of seen keys. */
  method UniqBannedWords(list: seq<Json>) returns (out: seq<string>)
    ensures out == UniqWords(list)
  {
    var ps := Phrases(list);
    out := [];
    var seen: set<string> := {};
    var i := 0;
    while i < |ps|
      invariant 0 <= i <= |ps|
      invariant out == Uniq(ps[..i])
      invariant seen == Elems(Keys(out))
    {
      UniqStep(ps, i);
      var v := ps[i];
      if v.Some? {
        var key := Lower(v.value);
        if key !in seen {
          KeysSnoc(out, v.value);
          seen := seen + {key};
          out := out + [v.value];
        }
      }
      i := i + 1;
    }
    assert ps[..|ps|] == ps;
  }

  // ----- welcome template -----------------------------------------------------

  /** The template text with every CRLF turned into LF and trimmed. */
  function TemplateText(value: string): string {
    Trim(ReplaceAll(value, "\r\n", "\n"))
  }

  /**
   * `normalizeWelcomeTemplate`: CRLF becomes LF and the text is trimmed; a blank
   * template becomes the default, a long one keeps its first 2000 characters.
   */
  function NormalizeWelcomeTemplate(value: string): (r: string)
    ensures TemplateText(value) == "" ==> r == DefaultWelcomeTemplate
    ensures TemplateText(value) != "" ==>
      StartsWith(TemplateText(value), r) && |r| == Min(|TemplateText(value)|, MaxWelcomeTemplateChars)
    ensures r != "" && |r| <= MaxWelcomeTemplateChars
  {
    DefaultTemplateShape();
    var raw := TemplateText(value);
    if raw == "" then DefaultWelcomeTemplate
    else if |raw| <= MaxWelcomeTemplateChars then raw
    else raw[..MaxWelcomeTemplateChars]
  }

  function Min(a: nat, b: nat): nat {
    if a <= b then a else b
  }

  lemma DefaultTemplateShape()
    ensures DefaultWelcomeTemplate != "" && |DefaultWelcomeTemplate| <= MaxWelcomeTemplateChars
  {
  }

  /** Replacing a pattern that does not occur changes nothing. */
  lemma {:induction false} ReplaceAllAbsent(s: string, pat: string, rep: string)
    requires pat != [] && !Contains(s, pat)
    ensures ReplaceAll(s, pat, rep) == s
    decreases |s|
  {
    if |s| >= |pat| {
      assert s[..|pat|] != pat;
      ReplaceAllAbsent(s[1..], pat, rep);
      assert [s[0]] + s[1..] == s;
    }
  }

  /** A template that is already normal: non-empty, trimmed, at most 2000 characters, without CRLF. */
  predicate StableTemplate(t: string) {
    t != "" && Trimmed(t) && |t| <= MaxWelcomeTemplateChars && !Contains(t, "\r\n")
  }

  lemma TemplateOfStable(t: string)
    requires StableTemplate(t)
    ensures NormalizeWelcomeTemplate(t) == t
  {
    ReplaceAllAbsent(t, "\r\n", "\n");
    TrimOfTrimmed(t);
  }

  /**
   * Normalising a template twice can change it again: the CR left in front of a
   * CRLF becomes part of a new CRLF once the first one is replaced.
   */
  lemma TemplateNotIdempotent()
    ensures NormalizeWelcomeTemplate("a\r\r\nb") == "a\r\nb"
    ensures NormalizeWelcomeTemplate("a\r\nb") == "a\nb"
  {
    assert ReplaceAll("a\r\r\nb", "\r\n", "\n") == "a\r\nb" by {
      assert ReplaceAll("\nb", "\r\n", "\n") == "\nb";
      assert ReplaceAll("\r\r\nb", "\r\n", "\n") == "\r" + ReplaceAll("\r\nb", "\r\n", "\n");
      assert ReplaceAll("\r\nb", "\r\n", "\n") == "\n" + ReplaceAll("b", "\r\n", "\n");
    }
    assert ReplaceAll("a\r\nb", "\r\n", "\n") == "a\nb" by {
      assert ReplaceAll("\r\nb", "\r\n", "\n") == "\n" + ReplaceAll("b", "\r\n", "\n");
    }
    TrimOfTrimmed("a\r\nb");
    TrimOfTrimmed("a\nb");
  }

  // ----- user identifiers -----------------------------------------------------

  /** `normalizeUserJid` on a raw value: only strings can be identifiers. */
  function JsonJid(v: Json): Option<string> {
    if v.JStr? then NormalizeUserJid(v.s) else None
  }

  /** `normalizeUserJid` applied to every element of a raw array. */
  function JidOpts(items: seq<Json>): (r: seq<Option<string>>)
    ensures |r| == |items| && forall k :: 0 <= k < |items| ==> r[k] == JsonJid(items[k])
  {
    seq(|items|, k requires 0 <= k < |items| => JsonJid(items[k]))
  }

  /** `list.map(normalizeUserJid).filter(Boolean)` over a raw array. */
  function JsonJids(items: seq<Json>): seq<string> {
    Somes(JidOpts(items))
  }

  /** An identifier is kept exactly when some element normalises to it. */
  lemma JsonJidsMembers(items: seq<Json>, j: string)
    ensures j in JsonJids(items) <==> exists i :: 0 <= i < |items| && JsonJid(items[i]) == Some(j)
  {
    SomesMember(JidOpts(items), j);
  }

  /** Only normalised identifiers are kept. */
  lemma JsonJidsCanonical(items: seq<Json>)
    ensures AllCanonical(JsonJids(items))
  {
    forall k | 0 <= k < |JsonJids(items)| ensures Canonical(JsonJids(items)[k]) {
      JsonJidsMembers(items, JsonJids(items)[k]);
    }
  }

  /** Raw strings normalise exactly as plain strings do. */
  lemma {:induction false} JsonJidsOfStrings(xs: seq<string>)
    ensures JsonJids(Strings(xs)) == NormalizeAll(xs)
    decreases |xs|
  {
    if xs != [] {
      assert JidOpts(Strings(xs))[1..] == JidOpts(Strings(xs[1..]));
      JsonJidsOfStrings(xs[1..]);
    }
  }

  /** `uniq(list.map(normalizeUserJid).filter(Boolean))` for a raw value that should be an array. */
  function JidList(v: Option<Json>): (r: seq<string>)
    ensures NoDup(r) && AllCanonical(r)
  {
    var items := if v.Some? && v.value.JArr? then v.value.items else [];
    JsonJidsCanonical(items);
    CanonicalDedup(JsonJids(items));
    Dedup(JsonJids(items))
  }

  /** A stored identifier list is its own normal form. */
  lemma JidListOfValid(xs: seq<string>)
    requires NoDup(xs) && AllCanonical(xs)
    ensures JidList(Some(JArr(Strings(xs)))) == xs
  {
    JsonJidsOfStrings(xs);
    NormalizeAllOfCanonical(xs);
    DedupOfNoDup(xs);
  }

  // ----- mutes ----------------------------------------------------------------

  /** A mute: the user and the instant it ends (`None`: until lifted). */
  datatype MuteEntry = MuteEntry(jid: string, until: Option<int>)

  /**
   * `normalizeMuteEntry`: `Some(until)` for an entry that is kept, `None` for one
   * that is dropped (malformed, or already expired at `now`).
   */
  function NormalizeMuteEntry(v: Json, now: int): (r: Option<Option<int>>)
    ensures r.Some? && r.value.Some? ==> r.value.value > now
    ensures v.JNull? || v.JArr? ==> r == Some(None)
    ensures v.JBool? ==> r.None?
  {
    match v
    case JNull => Some(None)
    case JBool(_) => None
    case JNum(n) => if n <= now then None else Some(Some(n))
    case JStr(_) => FutureInstant(ToNumber(v), now)
    case JArr(_) => Some(None)
    case JObj(_) =>
      match Get(v, "until")
      case None => Some(None)
      case Some(u) => if u.JNull? then Some(None) else FutureInstant(ToNumber(u), now)
  }

  /** A finite instant after `now` is kept; a non-number or a past instant drops the entry. */
  function FutureInstant(n: Option<int>, now: int): (r: Option<Option<int>>)
    ensures r.Some? <==> n.Some? && n.value > now
    ensures r.Some? ==> r.value == n
  {
    if n.None? || n.value <= now then None else Some(n)
  }

  /** How a mute is written to the document: `{ until: null }` or `{ until: n }`. */
  function UntilJson(until: Option<int>): Json {
    JObj([("until", if until.None? then JNull else JNum(until.value))])
  }

  /** A written mute reads back as itself while it has not ended, and is dropped once it has. */
  lemma MuteEntryReadBack(until: Option<int>, t: int)
    ensures NormalizeMuteEntry(UntilJson(until), t) == if until.None? || until.value > t then Some(until) else None
  {
  }

  /** The users of a mute map, in order. */
  function MuteJids(ms: seq<MuteEntry>): (r: seq<string>)
    ensures |r| == |ms|
  {
    if ms == [] then [] else [ms[0].jid] + MuteJids(ms[1..])
  }

  lemma {:induction false} MuteJidsAppend(a: seq<MuteEntry>, b: seq<MuteEntry>)
    ensures MuteJids(a + b) == MuteJids(a) + MuteJids(b)
    decreases |a|
  {
    if a != [] {
      assert (a + b)[1..] == a[1..] + b;
      assert (a + b)[0] == a[0];
      MuteJidsAppend(a[1..], b);
      assert MuteJids(a + b) == [a[0].jid] + MuteJids(a[1..] + b);
    } else {
      assert a + b == b;
    }
  }

  lemma {:induction false} MuteJidsAt(ms: seq<MuteEntry>, k: nat)
    requires k < |ms|
    ensures MuteJids(ms)[k] == ms[k].jid
    decreases k
  {
    if k > 0 {
      MuteJidsAt(ms[1..], k - 1);
    }
  }

  /** A mute map: normalised identifiers, each at most once. */
  predicate ValidMutes(ms: seq<MuteEntry>) {
    NoDup(MuteJids(ms)) && AllCanonical(MuteJids(ms))
  }

  /** No timed mute has ended by `now`. */
  predicate Live(ms: seq<MuteEntry>, now: int) {
    forall k :: 0 <= k < |ms| && ms[k].until.Some? ==> ms[k].until.value > now
  }

  /** The mute of `jid`, if any (`out[jid]`). */
  function MuteOf(ms: seq<MuteEntry>, jid: string): Option<Option<int>> {
    if ms == [] then None
    else if ms[0].jid == jid then Some(ms[0].until)
    else MuteOf(ms[1..], jid)
  }

  /** Exactly the listed users have a mute. */
  lemma {:induction false} MuteOfPresent(ms: seq<MuteEntry>, jid: string)
    ensures MuteOf(ms, jid).Some? <==> jid in MuteJids(ms)
    decreases |ms|
  {
    if ms != [] {
      MuteOfPresent(ms[1..], jid);
    }
  }

  /** `out[jid] = until`: replaces the user's mute where it is, or adds it at the end. */
  function PutMute(ms: seq<MuteEntry>, jid: string, until: Option<int>): seq<MuteEntry> {
    if ms == [] then [MuteEntry(jid, until)]
    else if ms[0].jid == jid then [MuteEntry(jid, until)] + ms[1..]
    else [ms[0]] + PutMute(ms[1..], jid, until)
  }

  /** Adding a mute keeps the users in place and appends a new user at the end. */
  lemma {:induction false} PutMuteJids(ms: seq<MuteEntry>, jid: string, until: Option<int>)
    ensures jid in MuteJids(ms) ==> MuteJids(PutMute(ms, jid, until)) == MuteJids(ms)
    ensures jid !in MuteJids(ms) ==> PutMute(ms, jid, until) == ms + [MuteEntry(jid, until)]
    decreases |ms|
  {
    if ms != [] {
      PutMuteJids(ms[1..], jid, until);
      if ms[0].jid == jid {
        assert ([MuteEntry(jid, until)] + ms[1..])[1..] == ms[1..];
      } else {
        var r := [ms[0]] + PutMute(ms[1..], jid, until);
        assert r[1..] == PutMute(ms[1..], jid, until);
      }
    }
  }

  /** After adding, the user has the new mute and every other user keeps theirs. */
  lemma {:induction false} PutMuteLookup(ms: seq<MuteEntry>, jid: string, until: Option<int>, j: string)
    ensures MuteOf(PutMute(ms, jid, until), j) == if j == jid then Some(until) else MuteOf(ms, j)
    decreases |ms|
  {
    if ms != [] {
      PutMuteLookup(ms[1..], jid, until, j);
      if ms[0].jid == jid {
        assert ([MuteEntry(jid, until)] + ms[1..])[1..] == ms[1..];
      } else {
        var r := [ms[0]] + PutMute(ms[1..], jid, until);
        assert r[1..] == PutMute(ms[1..], jid, until);
      }
    }
  }

  /** `delete out[jid]`. */
  function DeleteMute(ms: seq<MuteEntry>, jid: string): (r: seq<MuteEntry>)
    ensures |r| <= |ms|
  {
    if ms == [] then []
    else if ms[0].jid == jid then DeleteMute(ms[1..], jid)
    else [ms[0]] + DeleteMute(ms[1..], jid)
  }

  /** Deleting removes exactly that user and keeps every other user's mute. */
  lemma {:induction false} DeleteMuteSpec(ms: seq<MuteEntry>, jid: string, j: string)
    ensures MuteJids(DeleteMute(ms, jid)) == Minus(MuteJids(ms), [jid])
    ensures MuteOf(DeleteMute(ms, jid), j) == if j == jid then None else MuteOf(ms, j)
    decreases |ms|
  {
    if ms != [] {
      DeleteMuteSpec(ms[1..], jid, j);
      assert MuteJids(ms)[1..] == MuteJids(ms[1..]);
      if ms[0].jid != jid {
        var r := [ms[0]] + DeleteMute(ms[1..], jid);
        assert r[1..] == DeleteMute(ms[1..], jid);
      }
    }
  }

  /** One property of the raw mute object read as a mute, if it is kept. */
  function EntryOf(kv: (string, Json), now: int): (r: Option<MuteEntry>)
    ensures r.Some? ==> Canonical(r.value.jid) && (r.value.until.Some? ==> r.value.until.value > now)
  {
    match NormalizeUserJid(kv.0)
    case None => None
    case Some(j) =>
      match NormalizeMuteEntry(kv.1, now)
      case None => None
      case Some(u) => Some(MuteEntry(j, u))
  }

  /** The kept mutes of every property, in order. */
  function EntryOpts(entries: seq<(string, Json)>, now: int): (r: seq<Option<MuteEntry>>)
    ensures |r| == |entries| && forall k :: 0 <= k < |entries| ==> r[k] == EntryOf(entries[k], now)
  {
    seq(|entries|, k requires 0 <= k < |entries| => EntryOf(entries[k], now))
  }

  /** The loop of `normalizeMuteMap`: every kept mute is stored in turn, later ones replacing earlier ones. */
  function Collect(os: seq<Option<MuteEntry>>): seq<MuteEntry> {
    if os == [] then []
    else
      var p := Collect(os[..|os| - 1]);
      match os[|os| - 1]
      case None => p
      case Some(m) => PutMute(p, m.jid, m.until)
  }

  /** `normalizeMuteMap`: only a plain object holds mutes. */
  function NormalizeMuteMap(v: Option<Json>, now: int): (r: seq<MuteEntry>)
    ensures ValidMutes(r) && Live(r, now)
  {
    if v.Some? && v.value.JObj? then
      CollectValid(EntryOpts(v.value.entries, now), now);
      Collect(EntryOpts(v.value.entries, now))
    else []
  }

  /** Every kept mute is normalised and still running at `now`. */
  predicate AllKept(os: seq<Option<MuteEntry>>, now: int) {
    forall k :: 0 <= k < |os| && os[k].Some? ==>
      Canonical(os[k].value.jid) && (os[k].value.until.Some? ==> os[k].value.until.value > now)
  }

  /** What comes out has normalised, distinct users and no timed mute that has ended. */
  lemma {:induction false} CollectValid(os: seq<Option<MuteEntry>>, now: int)
    requires AllKept(os, now)
    ensures ValidMutes(Collect(os)) && Live(Collect(os), now)
    decreases |os|
  {
    if os != [] {
      var init := os[..|os| - 1];
      assert AllKept(init, now) by {
        assert forall k :: 0 <= k < |init| ==> init[k] == os[k];
      }
      CollectValid(init, now);
      if os[|os| - 1].Some? {
        PutMuteValid(Collect(init), os[|os| - 1].value, now);
      }
    }
  }

  /** Storing a normalised, running mute keeps a map valid and live. */
  lemma PutMuteValid(p: seq<MuteEntry>, m: MuteEntry, now: int)
    requires ValidMutes(p) && Live(p, now)
    requires Canonical(m.jid) && (m.until.Some? ==> m.until.value > now)
    ensures ValidMutes(PutMute(p, m.jid, m.until)) && Live(PutMute(p, m.jid, m.until), now)
  {
    PutMuteJids(p, m.jid, m.until);
    if m.jid in MuteJids(p) {
      PutMuteParts(p, m.jid, m.until);
    } else {
      MuteJidsAppend(p, [m]);
      NoDupAppendMinus(MuteJids(p), [m.jid]);
      MinusSingle(m.jid, MuteJids(p));
      assert MuteJids([m]) == [m.jid];
    }
  }

  /** Every entry of an updated map is either the new mute or an entry of the old map. */
  lemma {:induction false} PutMuteParts(ms: seq<MuteEntry>, jid: string, until: Option<int>)
    ensures forall k :: 0 <= k < |PutMute(ms, jid, until)| ==>
      PutMute(ms, jid, until)[k] == MuteEntry(jid, until) || PutMute(ms, jid, until)[k] in ms
    decreases |ms|
  {
    if ms != [] && ms[0].jid != jid {
      PutMuteParts(ms[1..], jid, until);
      var r := [ms[0]] + PutMute(ms[1..], jid, until);
      assert forall k :: 1 <= k < |r| ==> r[k] == PutMute(ms[1..], jid, until)[k - 1];
    }
  }

  /** How a mute map is written to the document. */
  function MutesJson(ms: seq<MuteEntry>): (r: seq<(string, Json)>)
    ensures |r| == |ms| && forall k :: 0 <= k < |ms| ==> r[k] == (ms[k].jid, UntilJson(ms[k].until))
  {
    seq(|ms|, k requires 0 <= k < |ms| => (ms[k].jid, UntilJson(ms[k].until)))
  }

  /** A mute that has not ended at `t`. */
  predicate Alive(m: MuteEntry, t: int) {
    m.until.None? || m.until.value > t
  }

  /** The mutes of a map that have not ended at `t`, in order. */
  function Running(ms: seq<MuteEntry>, t: int): seq<MuteEntry> {
    if ms == [] then []
    else Running(ms[..|ms| - 1], t) + (if Alive(ms[|ms| - 1], t) then [ms[|ms| - 1]] else [])
  }

  /** Dropping ended mutes keeps only users of the map. */
  lemma {:induction false} RunningJids(ms: seq<MuteEntry>, t: int, j: string)
    requires j in MuteJids(Running(ms, t))
    ensures j in MuteJids(ms)
    decreases |ms|
  {
    var init := ms[..|ms| - 1];
    var m := ms[|ms| - 1];
    assert init + [m] == ms;
    MuteJidsAppend(init, [m]);
    assert MuteJids([m]) == [m.jid];
    var tail := if Alive(m, t) then [m] else [];
    MuteJidsAppend(Running(init, t), tail);
    if j in MuteJids(Running(init, t)) {
      RunningJids(init, t, j);
    } else {
      assert tail == [m];
    }
  }

  /** While every mute is running, nothing is dropped. */
  lemma {:induction false} RunningOfLive(ms: seq<MuteEntry>, t: int)
    requires Live(ms, t)
    ensures Running(ms, t) == ms
    decreases |ms|
  {
    if ms != [] {
      var init := ms[..|ms| - 1];
      assert Live(init, t) by {
        assert forall k :: 0 <= k < |init| ==> init[k] == ms[k];
      }
      RunningOfLive(init, t);
      assert init + [ms[|ms| - 1]] == ms;
    }
  }

  /** The options a written mute map is read back as at `t`. */
  function Written(ms: seq<MuteEntry>, t: int): (r: seq<Option<MuteEntry>>)
    ensures |r| == |ms| && forall k :: 0 <= k < |ms| ==> r[k] == if Alive(ms[k], t) then Some(ms[k]) else None
  {
    seq(|ms|, k requires 0 <= k < |ms| => if Alive(ms[k], t) then Some(ms[k]) else None)
  }

  /** Mutes stored one after another, each for a different user, are collected without the ended ones. */
  lemma {:induction false} CollectWritten(ms: seq<MuteEntry>, t: int)
    requires NoDup(MuteJids(ms))
    ensures Collect(Written(ms, t)) == Running(ms, t)
    decreases |ms|
  {
    if ms != [] {
      var init := ms[..|ms| - 1];
      var m := ms[|ms| - 1];
      assert init + [m] == ms;
      MuteJidsAppend(init, [m]);
      assert MuteJids([m]) == [m.jid];
      assert NoDup(MuteJids(init)) by {
        assert forall k :: 0 <= k < |init| ==> MuteJids(init)[k] == MuteJids(ms)[k];
      }
      CollectWritten(init, t);
      assert Written(ms, t)[..|ms| - 1] == Written(init, t);
      if Alive(m, t) {
        forall k | 0 <= k < |init| ensures MuteJids(init)[k] != m.jid {
          assert MuteJids(ms)[k] == MuteJids(init)[k];
          assert MuteJids(ms)[|ms| - 1] == m.jid;
        }
        if m.jid in MuteJids(Running(init, t)) {
          RunningJids(init, t, m.jid);
        }
        PutMuteJids(Running(init, t), m.jid, m.until);
      }
    }
  }

  /** A written mute of a normalised user reads back as itself while it runs, and is dropped once it has ended. */
  lemma EntryOfWritten(m: MuteEntry, t: int)
    requires Canonical(m.jid)
    ensures EntryOf((m.jid, UntilJson(m.until)), t) == if Alive(m, t) then Some(m) else None
  {
    NormalizeFixesCanonical(m.jid);
    MuteEntryReadBack(m.until, t);
  }

  /** A written mute map reads back at `t` without the mutes that have ended by then. */
  lemma MutesExpire(ms: seq<MuteEntry>, t: int)
    requires ValidMutes(ms)
    ensures NormalizeMuteMap(Some(JObj(MutesJson(ms))), t) == Running(ms, t)
  {
    forall k | 0 <= k < |ms| ensures EntryOf(MutesJson(ms)[k], t) == Written(ms, t)[k] {
      MuteJidsAt(ms, k);
      EntryOfWritten(ms[k], t);
    }
    assert EntryOpts(MutesJson(ms), t) == Written(ms, t);
    CollectWritten(ms, t);
  }

  /** A written mute map reads back as itself while none of its mutes has ended. */
  lemma MutesRoundTrip(ms: seq<MuteEntry>, now: int)
    requires ValidMutes(ms) && Live(ms, now)
    ensures NormalizeMuteMap(Some(JObj(MutesJson(ms))), now) == ms
  {
    MutesExpire(ms, now);
    RunningOfLive(ms, now);
  }

  /** `normalizeMuteMap`'s loop over the properties of the raw mute object. */
  method CollectMutes(v: Option<Json>, now: int) returns (out: seq<MuteEntry>)
    ensures out == NormalizeMuteMap(v, now)
  {
    out := [];
    if v.Some? && v.value.JObj? {
      var entries := v.value.entries;
      ghost var os := EntryOpts(entries, now);
      var i := 0;
      while i < |entries|
        invariant 0 <= i <= |entries|
        invariant out == Collect(os[..i])
      {
        assert os[..i + 1][..i] == os[..i];
        var e := EntryOf(entries[i], now);
        if e.Some? {
          out := PutMute(out, e.value.jid, e.value.until);
        }
        i := i + 1;
      }
      assert os[..|entries|] == os;
    }
  }

  // ----- group settings -------------------------------------------------------

  /** The per-group moderation switches. */
  datatype Moderation = Moderation(
    antiLink: bool, filterEnabled: bool, antiImage: bool, antiSticker: bool,
    exemptAllowlisted: bool, exemptAdmins: bool)

  /** What a group starts with: every filter off, allowlisted users and admins exempt. */
  const DefaultModeration := Moderation(false, false, false, false, true, true)

  /** The property `key` of an optional raw value. */
  function Field(v: Option<Json>, key: string): Option<Json> {
    if v.Some? then Get(v.value, key) else None
  }

  /** A stored boolean is kept; anything else becomes `default`. */
  function Flag(v: Option<Json>, key: string, default: bool): bool {
    match Field(v, key)
    case Some(JBool(b)) => b
    case _ => default
  }

  /** `ensureModerationConfig`. */
  function EnsureModeration(v: Option<Json>): (r: Moderation)
    ensures v.None? || !v.value.JObj? ==> r == DefaultModeration
  {
    Moderation(
      Flag(v, "antiLink", false), Flag(v, "filterEnabled", false),
      Flag(v, "antiImage", false), Flag(v, "antiSticker", false),
      Flag(v, "exemptAllowlisted", true), Flag(v, "exemptAdmins", true))
  }

  function ModerationJson(m: Moderation): Json {
    JObj(FilterEntries(m) + ExemptEntries(m))
  }

  function FilterEntries(m: Moderation): seq<(string, Json)> {
    [("antiLink", JBool(m.antiLink)), ("filterEnabled", JBool(m.filterEnabled)), ("antiImage", JBool(m.antiImage))]
  }

  function ExemptEntries(m: Moderation): seq<(string, Json)> {
    [("antiSticker", JBool(m.antiSticker)), ("exemptAllowlisted", JBool(m.exemptAllowlisted)),
     ("exemptAdmins", JBool(m.exemptAdmins))]
  }

  /** Stored switches read back as they are. */
  lemma ModerationRoundTrip(m: Moderation)
    ensures EnsureModeration(Some(ModerationJson(m))) == m
  {
    var f := FilterEntries(m);
    var e := ExemptEntries(m);
    LookupAppend(f, e, "antiLink");
    LookupAppend(f, e, "filterEnabled");
    LookupAppend(f, e, "antiImage");
    LookupAppend(f, e, "antiSticker");
    LookupAppend(f, e, "exemptAllowlisted");
    LookupAppend(f, e, "exemptAdmins");
    FilterLookups(m);
    ExemptLookups(m);
    ModerationOfFlags(Some(ModerationJson(m)), m);
  }

  lemma FilterLookups(m: Moderation)
    ensures Lookup(FilterEntries(m), "antiLink") == Some(JBool(m.antiLink))
    ensures Lookup(FilterEntries(m), "filterEnabled") == Some(JBool(m.filterEnabled))
    ensures Lookup(FilterEntries(m), "antiImage") == Some(JBool(m.antiImage))
    ensures Lookup(FilterEntries(m), "antiSticker").None?
    ensures Lookup(FilterEntries(m), "exemptAllowlisted").None?
    ensures Lookup(FilterEntries(m), "exemptAdmins").None?
  {
    LookupAt(FilterEntries(m), 2, "antiImage");
    LookupSpec(FilterEntries(m), "antiSticker");
    LookupSpec(FilterEntries(m), "exemptAllowlisted");
    LookupSpec(FilterEntries(m), "exemptAdmins");
  }

  lemma ExemptLookups(m: Moderation)
    ensures Lookup(ExemptEntries(m), "antiSticker") == Some(JBool(m.antiSticker))
    ensures Lookup(ExemptEntries(m), "exemptAllowlisted") == Some(JBool(m.exemptAllowlisted))
    ensures Lookup(ExemptEntries(m), "exemptAdmins") == Some(JBool(m.exemptAdmins))
  {
    LookupAt(ExemptEntries(m), 2, "exemptAdmins");
  }

  lemma ModerationOfFlags(v: Option<Json>, m: Moderation)
    requires Flag(v, "antiLink", false) == m.antiLink && Flag(v, "filterEnabled", false) == m.filterEnabled
    requires Flag(v, "antiImage", false) == m.antiImage && Flag(v, "antiSticker", false) == m.antiSticker
    requires Flag(v, "exemptAllowlisted", true) == m.exemptAllowlisted && Flag(v, "exemptAdmins", true) == m.exemptAdmins
    ensures EnsureModeration(v) == m
  {
  }

  /** The per-group welcome settings. */
  datatype Welcome = Welcome(enabled: bool, template: string)

  /** `ensureWelcomeConfig`: `enabled` must be a boolean (else off); the template is normalised. */
  function EnsureWelcome(v: Option<Json>): (r: Welcome)
    ensures r.template != "" && |r.template| <= MaxWelcomeTemplateChars
    ensures v.None? || !v.value.JObj? ==> r == Welcome(false, DefaultWelcomeTemplate)
  {
    if v.None? || !v.value.JObj? then
      assert ReplaceAll("", "\r\n", "\n") == "";
      Welcome(false, NormalizeWelcomeTemplate(""))
    else
      Welcome(Flag(v, "enabled", false), NormalizeWelcomeTemplate(TextOrEmpty(Field(v, "template"))))
  }

  function WelcomeJson(w: Welcome): Json {
    JObj([("enabled", JBool(w.enabled)), ("template", JStr(w.template))])
  }

  /** Stored welcome settings read back with the template normalised once more. */
  lemma WelcomeRoundTrip(w: Welcome)
    ensures EnsureWelcome(Some(WelcomeJson(w))) == Welcome(w.enabled, NormalizeWelcomeTemplate(w.template))
  {
    var es := WelcomeJson(w).entries;
    LookupAt(es, 0, "enabled");
    LookupAt(es, 1, "template");
  }

  /** A group's settings once `ensureGroup` has normalised them. */
  datatype Group = Group(
    bans: seq<string>, moderation: Moderation, welcome: Welcome,
    bannedWords: seq<string>, mutes: seq<MuteEntry>)

  /** What `ensureGroup` guarantees about a group. */
  predicate ValidGroup(g: Group) {
    && NoDup(g.bans) && AllCanonical(g.bans)
    && g.welcome.template != "" && |g.welcome.template| <= MaxWelcomeTemplateChars
    && ValidWords(g.bannedWords)
    && ValidMutes(g.mutes)
  }

  /** The raw array behind a property, or nothing. */
  function Items(v: Option<Json>): seq<Json> {
    if v.Some? && v.value.JArr? then v.value.items else []
  }

  /**
   * `ensureGroup` for a group identifier: the stored value (anything that is not
   * an object counts as `{}`) with every part normalised, and mutes that ended by
   * `now` dropped.
   */
  function NormalizeGroup(raw: Option<Json>, now: int): (g: Group)
    ensures ValidGroup(g) && Live(g.mutes, now)
  {
    var obj := if raw.Some? && IsObject(raw.value) then raw else None;
    var words := UniqWords(Items(Field(obj, "bannedWords")));
    PhrasesArePhrases(Items(Field(obj, "bannedWords")));
    UniqValid(Phrases(Items(Field(obj, "bannedWords"))));
    var mutes := NormalizeMuteMap(Field(obj, "mutes"), now);
    Group(
      JidList(Field(obj, "bans")), EnsureModeration(Field(obj, "moderation")),
      EnsureWelcome(Field(obj, "welcome")), words, mutes)
  }

  /** How `ensureGroup` leaves a group in the document. */
  function GroupJson(g: Group): Json {
    JObj([
      ("bans", JArr(Strings(g.bans))), ("moderation", ModerationJson(g.moderation)),
      ("welcome", WelcomeJson(g.welcome)), ("bannedWords", JArr(Strings(g.bannedWords))),
      ("mutes", JObj(MutesJson(g.mutes)))])
  }

  /**
   * Normalising a normalised group again changes only the welcome template
   * (normalised once more), while no mute has ended.
   */
  lemma GroupRoundTrip(g: Group, now: int)
    requires ValidGroup(g) && Live(g.mutes, now)
    ensures NormalizeGroup(Some(GroupJson(g)), now)
      == g.(welcome := Welcome(g.welcome.enabled, NormalizeWelcomeTemplate(g.welcome.template)))
  {
    GroupReadBack(g, now);
    RunningOfLive(g.mutes, now);
  }

  /**
   * Reading a normalised group back at any time `t` keeps its bans, switches,
   * welcome switch and phrases, normalises the template once more and drops the
   * mutes that have ended by `t`.
   */
  lemma GroupReadBack(g: Group, t: int)
    requires ValidGroup(g)
    ensures NormalizeGroup(Some(GroupJson(g)), t) == Group(
      g.bans, g.moderation, Welcome(g.welcome.enabled, NormalizeWelcomeTemplate(g.welcome.template)),
      g.bannedWords, Running(g.mutes, t))
  {
    var es := GroupJson(g).entries;
    LookupAt(es, 0, "bans");
    LookupAt(es, 1, "moderation");
    LookupAt(es, 2, "welcome");
    LookupAt(es, 3, "bannedWords");
    LookupAt(es, 4, "mutes");
    JidListOfValid(g.bans);
    ModerationRoundTrip(g.moderation);
    WelcomeRoundTrip(g.welcome);
    UniqWordsOfValid(g.bannedWords);
    MutesExpire(g.mutes, t);
  }

  /** With a template that is already normal, a normalised group is its own normal form. */
  lemma GroupStable(g: Group, now: int)
    requires ValidGroup(g) && Live(g.mutes, now) && StableTemplate(g.welcome.template)
    ensures NormalizeGroup(Some(GroupJson(g)), now) == g
  {
    GroupRoundTrip(g, now);
    TemplateOfStable(g.welcome.template);
  }

  // ----- the whole document ---------------------------------------------------

  /** The document in memory: the version, the groups' raw values by identifier, the allowlist. */
  datatype StoreData = StoreData(version: nat, groups: map<string, Json>, allowlist: seq<string>)

  /** An object's properties as a lookup table; the first pair with a key counts, as in `Lookup`. */
  function EntriesMap(entries: seq<(string, Json)>): (m: map<string, Json>)
    ensures forall k :: k in m <==> Lookup(entries, k).Some?
    ensures forall k :: k in m ==> Lookup(entries, k) == Some(m[k])
  {
    if entries == [] then map[]
    else EntriesMap(entries[1..])[entries[0].0 := entries[0].1]
  }

  /** `normalizeStoreData`: a non-object document, a non-object `groups` and a non-array `allowlist` become empty. */
  function NormalizeStoreData(value: Option<Json>): (d: StoreData)
    ensures d.version == StoreVersion
    ensures NoDup(d.allowlist) && AllCanonical(d.allowlist)
    ensures value.None? || !value.value.JObj? ==> d == StoreData(StoreVersion, map[], [])
  {
    var v := if value.Some? && IsObject(value.value) then value else None;
    var groups := Field(v, "groups");
    StoreData(
      StoreVersion,
      if groups.Some? && groups.value.JObj? then EntriesMap(groups.value.entries) else map[],
      JidList(Field(v, "allowlist")))
  }

  /**
   * A `groups` array is kept as the container, but no group identifier is one of
   * its indices, so in memory it holds no group: it reads as the empty map, and
   * the allowlist is read as usual.
   */
  lemma ArrayGroupsReadEmpty(entries: seq<(string, Json)>, items: seq<Json>)
    requires Lookup(entries, "groups") == Some(JArr(items))
    ensures NormalizeStoreData(Some(JObj(entries))).groups == map[]
    ensures NormalizeStoreData(Some(JObj(entries))).allowlist == JidList(Lookup(entries, "allowlist"))
  {
    assert Field(Some(JObj(entries)), "groups") == Some(JArr(items));
    assert Field(Some(JObj(entries)), "allowlist") == Lookup(entries, "allowlist");
  }
}
