/**
 * The parts of an incoming WhatsApp message record the bot reads. Wrappers
 * (ephemeral, view-once and its two later variants) nest a further message;
 * text sits in one of several fields, and the context (mentions, quoted author,
 * quoted message id) in the `contextInfo` of a text or media part.
 */
module Message {
  import opened Wrappers
  import opened Text
  import opened Jid
  import opened Seqs

  /** The `contextInfo` of a part. `mentionedJid` is `None` when the field is not an array; its entries are `None` when not strings. */
  datatype ContextInfo = ContextInfo(
    mentionedJid: Option<seq<Option<string>>>,
    participant: Option<string>,
    stanzaId: Option<string>)

  /** An extended-text, image, video or document part: its `text` (or `caption`) and its context. */
  datatype Part = Part(text: Option<string>, contextInfo: Option<ContextInfo>)

  /**
   * A message record. Each wrapper field holds the `message` nested in the wrapper,
   * when there is one; the three id fields are the selected ids of button, template
   * and list replies.
   */
  datatype Msg = Msg(
    ephemeral: Option<Msg>,
    viewOnce: Option<Msg>,
    viewOnceV2: Option<Msg>,
    viewOnceV2Extension: Option<Msg>,
    selectedButtonId: Option<string>,
    templateSelectedId: Option<string>,
    listSelectedRowId: Option<string>,
    conversation: Option<string>,
    extendedText: Option<Part>,
    image: Option<Part>,
    video: Option<Part>,
    document: Option<Part>,
    hasSticker: bool)

  predicate Wrapped(m: Msg) {
    m.ephemeral.Some? || m.viewOnce.Some? || m.viewOnceV2.Some? || m.viewOnceV2Extension.Some?
  }

  /** `unwrapMessage`: follow the first wrapper present, in the fixed order, until none is left. */
  function Unwrap(m: Msg): (r: Msg)
    ensures !Wrapped(r)
    ensures !Wrapped(m) ==> r == m
  {
    if m.ephemeral.Some? then Unwrap(m.ephemeral.value)
    else if m.viewOnce.Some? then Unwrap(m.viewOnce.value)
    else if m.viewOnceV2.Some? then Unwrap(m.viewOnceV2.value)
    else if m.viewOnceV2Extension.Some? then Unwrap(m.viewOnceV2Extension.value)
    else m
  }

  lemma UnwrapIdempotent(m: Msg)
    ensures Unwrap(Unwrap(m)) == Unwrap(m)
  {
  }

  /** A wrapper is transparent: wrapping a message in any of the four changes nothing the bot reads. */
  lemma UnwrapThroughWrapper(inner: Msg, outer: Msg)
    requires outer.ephemeral == Some(inner)
          || (outer.ephemeral.None? && outer.viewOnce == Some(inner))
          || (outer.ephemeral.None? && outer.viewOnce.None? && outer.viewOnceV2 == Some(inner))
          || (!(outer.ephemeral.Some? || outer.viewOnce.Some? || outer.viewOnceV2.Some?) && outer.viewOnceV2Extension == Some(inner))
    ensures Unwrap(outer) == Unwrap(inner)
  {
  }

  /** A JavaScript string field is truthy when present and not empty. */
  predicate Truthy(s: Option<string>) {
    s.Some? && s.value != ""
  }

  function PartText(p: Option<Part>): Option<string> {
    if p.Some? then p.value.text else None
  }

  function PartContext(p: Option<Part>): Option<ContextInfo> {
    if p.Some? then p.value.contextInfo else None
  }

  /** The text fields of an unwrapped message in the order `extractText` tries them. */
  function TextCandidates(u: Msg): seq<Option<string>> {
    [u.selectedButtonId, u.templateSelectedId, u.listSelectedRowId, u.conversation,
     PartText(u.extendedText), PartText(u.image), PartText(u.video), PartText(u.document)]
  }

  /** The first truthy entry, or `None` (a chain of `||` ending in `null`). */
  function FirstTruthy(xs: seq<Option<string>>): (r: Option<string>)
    ensures r.None? <==> forall k :: 0 <= k < |xs| ==> !Truthy(xs[k])
    ensures r.Some? ==> exists k :: 0 <= k < |xs| && xs[k] == r && Truthy(xs[k]) && forall k' :: 0 <= k' < k ==> !Truthy(xs[k'])
  {
    if xs == [] then None
    else if Truthy(xs[0]) then xs[0]
    else
      var r := FirstTruthy(xs[1..]);
      assert r.Some? ==> exists k :: 0 <= k < |xs| && xs[k] == r && Truthy(xs[k]) && forall k' :: 0 <= k' < k ==> !Truthy(xs[k']) by {
        if r.Some? {
          var k :| 0 <= k < |xs[1..]| && xs[1..][k] == r && Truthy(xs[1..][k]) && forall k' :: 0 <= k' < k ==> !Truthy(xs[1..][k']);
          assert xs[k + 1] == r && forall k' :: 0 <= k' < k + 1 ==> !Truthy(xs[k']);
        }
      }
      r
  }

  /** `extractText`: the first non-empty text field of the unwrapped message, in the fixed priority order. */
  function ExtractText(m: Option<Msg>): (r: Option<string>)
    ensures m.None? ==> r.None?
    ensures r.Some? ==> r.value != ""
  {
    if m.None? then None else FirstTruthy(TextCandidates(Unwrap(m.value)))
  }

  /** A plain conversation text is the command text unless a button, template or list reply id is set. */
  lemma ExtractTextConversation(m: Msg)
    requires var u := Unwrap(m);
      !Truthy(u.selectedButtonId) && !Truthy(u.templateSelectedId) && !Truthy(u.listSelectedRowId) && Truthy(u.conversation)
    ensures ExtractText(Some(m)) == Unwrap(m).conversation
  {
    var c := TextCandidates(Unwrap(m));
    assert c[1..][1..][1..][0] == c[3];
  }

  /** A button reply id wins over every other text field. */
  lemma ExtractTextButtonFirst(m: Msg)
    requires Truthy(Unwrap(m).selectedButtonId)
    ensures ExtractText(Some(m)) == Unwrap(m).selectedButtonId
  {
  }

  /** The contexts of the extended text, image, video and document parts, in the order they are tried. */
  function ContextCandidates(u: Msg): seq<Option<ContextInfo>> {
    [PartContext(u.extendedText), PartContext(u.image), PartContext(u.video), PartContext(u.document)]
  }

  /** `extractContextInfo`: the context of the first part present, in the fixed order. */
  function ExtractContextInfo(m: Option<Msg>): (r: Option<ContextInfo>)
    ensures m.None? ==> r.None?
    ensures m.Some? ==> var cs := ContextCandidates(Unwrap(m.value));
      && (r.None? <==> forall i :: 0 <= i < |cs| ==> cs[i].None?)
      && (r.Some? ==> exists i :: 0 <= i < |cs| && r == cs[i] && forall j :: 0 <= j < i ==> cs[j].None?)
    ensures m.Some? && PartContext(Unwrap(m.value).extendedText).Some? ==> r == PartContext(Unwrap(m.value).extendedText)
  {
    if m.None? then None
    else
      var cs := ContextCandidates(Unwrap(m.value));
      assert |cs| == 4 && cs[0] == PartContext(Unwrap(m.value).extendedText);
      if cs[0].Some? then cs[0]
      else if cs[1].Some? then cs[1]
      else if cs[2].Some? then cs[2]
      else if cs[3].Some? then cs[3]
      else None
  }

  /** `raw.map(normalizeUserJid).filter(Boolean)` over entries that may not be strings. */
  function NormalizeEntries(raw: seq<Option<string>>): (r: seq<string>)
    ensures |r| <= |raw|
    ensures AllCanonical(r)
  {
    if raw == [] then []
    else if raw[0].None? then NormalizeEntries(raw[1..])
    else
      match NormalizeUserJid(raw[0].value)
      case None => NormalizeEntries(raw[1..])
      case Some(j) => [j] + NormalizeEntries(raw[1..])
  }

  /** Every normalisable entry is kept, and only those: a JID is listed iff some entry normalises to it. */
  lemma {:induction false} NormalizeEntriesMembers(raw: seq<Option<string>>, j: string)
    ensures j in NormalizeEntries(raw) <==> exists k :: 0 <= k < |raw| && raw[k].Some? && NormalizeUserJid(raw[k].value) == Some(j)
  {
    if raw != [] {
      NormalizeEntriesMembers(raw[1..], j);
      if j in NormalizeEntries(raw) && !(raw[0].Some? && NormalizeUserJid(raw[0].value) == Some(j)) {
        var k :| 0 <= k < |raw[1..]| && raw[1..][k].Some? && NormalizeUserJid(raw[1..][k].value) == Some(j);
        assert raw[k + 1] == raw[1..][k];
      }
      if exists k :: 0 <= k < |raw| && raw[k].Some? && NormalizeUserJid(raw[k].value) == Some(j) {
        var k :| 0 <= k < |raw| && raw[k].Some? && NormalizeUserJid(raw[k].value) == Some(j);
        if k > 0 {
          assert raw[1..][k - 1] == raw[k];
        }
      }
    }
  }

  /** `NormalizeEntriesMembers` for every JID at once. */
  lemma NormalizeEntriesAllMembers(raw: seq<Option<string>>)
    ensures forall j :: j in NormalizeEntries(raw) <==>
      exists k :: 0 <= k < |raw| && raw[k].Some? && NormalizeUserJid(raw[k].value) == Some(j)
  {
    forall j ensures j in NormalizeEntries(raw) <==>
      exists k :: 0 <= k < |raw| && raw[k].Some? && NormalizeUserJid(raw[k].value) == Some(j)
    {
      NormalizeEntriesMembers(raw, j);
    }
  }

  /** `extractMentions`: the normalisable `mentionedJid` entries of the context, normalised, in order. */
  function ExtractMentions(m: Option<Msg>): (r: seq<string>)
    ensures AllCanonical(r)
    ensures ExtractContextInfo(m).None? || ExtractContextInfo(m).value.mentionedJid.None? ==> r == []
    ensures ExtractContextInfo(m).Some? && ExtractContextInfo(m).value.mentionedJid.Some? ==>
      var raw := ExtractContextInfo(m).value.mentionedJid.value;
      forall j :: j in r <==> exists k :: 0 <= k < |raw| && raw[k].Some? && NormalizeUserJid(raw[k].value) == Some(j)
  {
    var ctx := ExtractContextInfo(m);
    if ctx.Some? && ctx.value.mentionedJid.Some? then
      NormalizeEntriesAllMembers(ctx.value.mentionedJid.value);
      NormalizeEntries(ctx.value.mentionedJid.value)
    else []
  }

  /** `extractQuotedParticipant`: the normalised author of the quoted message. */
  function ExtractQuotedParticipant(m: Option<Msg>): (r: Option<string>)
    ensures r.Some? ==> Canonical(r.value)
    ensures r.Some? ==> var ctx := ExtractContextInfo(m);
      ctx.Some? && ctx.value.participant.Some? && NormalizeUserJid(ctx.value.participant.value) == r
    ensures var ctx := ExtractContextInfo(m);
      r.None? <==> ctx.None? || ctx.value.participant.None? || NormalizeUserJid(ctx.value.participant.value).None?
  {
    var ctx := ExtractContextInfo(m);
    if ctx.Some? && ctx.value.participant.Some? then NormalizeUserJid(ctx.value.participant.value) else None
  }

  /** `getReplyStanzaId`: the trimmed id of the quoted message, or `None` when it is blank or absent. */
  function GetReplyStanzaId(m: Option<Msg>): (r: Option<string>)
    ensures r.Some? ==> r.value != "" && Trimmed(r.value)
    ensures var ctx := ExtractContextInfo(m);
      r.None? <==> ctx.None? || ctx.value.stanzaId.None? || AllSpace(ctx.value.stanzaId.value)
    ensures r.Some? ==> r.value == Trim(ExtractContextInfo(m).value.stanzaId.value)
  {
    var ctx := ExtractContextInfo(m);
    if ctx.None? || ctx.value.stanzaId.None? then None
    else
      var id := Trim(ctx.value.stanzaId.value);
      if id == "" then None else Some(id)
  }
}
