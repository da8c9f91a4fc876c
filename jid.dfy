/**
 * WhatsApp identifiers ("JIDs"): `user@server`. Groups live on `g.us`; users on
 * `s.whatsapp.net` or on `lid`. A user JID may carry a device suffix
 * (`user:device@server`), which normalisation drops.
 */
module Jid {
  import opened Wrappers
  import opened Text
  import opened Seqs

  const GroupSuffix: string := "@g.us"
  const PhoneSuffix: string := "@s.whatsapp.net"
  const LidSuffix: string := "@lid"

  predicate IsGroupJid(j: string) {
    EndsWith(j, GroupSuffix)
  }

  predicate IsUserJid(j: string) {
    EndsWith(j, PhoneSuffix) || EndsWith(j, LidSuffix)
  }

  /** No identifier is both a group and a user. */
  lemma GroupAndUserDisjoint(j: string)
    ensures !(IsGroupJid(j) && IsUserJid(j))
  {
    if IsGroupJid(j) {
      assert j[|j| - 1] == GroupSuffix[4];
      assert j[|j| - 2] == GroupSuffix[3];
    }
  }

  /**
   * The form `NormalizeUserJid` produces: no surrounding white space, a non-empty
   * user part without `:` before the first `@`, a non-empty lower-case server part,
   * and a user suffix.
   */
  predicate Canonical(j: string) {
    && Trimmed(j)
    && IsUserJid(j)
    && match IndexOf(j, '@')
       case None => false
       case Some(i) => 0 < i && i + 1 < |j| && ':' !in j[..i] && Lower(j[i + 1..]) == j[i + 1..]
  }

  /**
   * `normalizeUserJid` on a string: trim, split at the first `@`, keep the user part
   * up to its first `:`, lower-case the server part, and accept only a user JID.
   */
  function NormalizeUserJid(s: string): (r: Option<string>)
    ensures AllSpace(s) ==> r.None?
    ensures '@' !in s ==> r.None?
    ensures r.Some? ==> Canonical(r.value)
  {
    TrimKeepsAt(s);
    SplitTrimmed(Trim(s))
  }

  /** `normalizeUserJid` after the trim. */
  function SplitTrimmed(t: string): (r: Option<string>)
    requires Trimmed(t)
    ensures '@' !in t ==> r.None?
    ensures r.Some? ==> Canonical(r.value)
  {
    match IndexOf(t, '@')
    case None => None
    case Some(at) =>
      var r := Assemble(BeforeFirst(t[..at], ':'), Lower(t[at + 1..]));
      if r.Some? then CanonicalOfParts(t, at); r else r
  }

  /** The last step of `normalizeUserJid`: rejoin the parts and keep only a user JID. */
  function Assemble(user: string, server: string): Option<string> {
    if user == [] || server == [] then None
    else if IsUserJid(user + "@" + server) then Some(user + "@" + server)
    else None
  }

  /** An `@` survives trimming. */
  lemma TrimKeepsAt(s: string)
    ensures '@' in s ==> '@' in Trim(s)
  {
    if '@' in s {
      var i :| 0 <= i < |s| && s[i] == '@';
      var n := LeadCount(s);
      var a := TrimStart(s);
      assert i >= n && a[i - n] == '@';
      var m := TrailCount(a);
      assert i - n < |a| - m;
      assert Trim(s)[i - n] == '@';
    }
  }

  lemma CanonicalOfParts(t: string, at: nat)
    requires Trimmed(t) && at < |t| && t[at] == '@' && '@' !in t[..at]
    requires Assemble(BeforeFirst(t[..at], ':'), Lower(t[at + 1..])).Some?
    ensures Canonical(Assemble(BeforeFirst(t[..at], ':'), Lower(t[at + 1..])).value)
  {
    var user, server := BeforeFirst(t[..at], ':'), Lower(t[at + 1..]);
    var j := user + "@" + server;
    assert user[0] == t[0];
    assert j[|j| - 1] == server[|server| - 1] == LowerChar(t[|t| - 1]);
    assert '@' !in user;
    SplitAtSign(user, server);
    IndexOfFirst(j, '@', |user|);
    LowerIdempotent(t[at + 1..]);
  }

  /** Where the `@` of `user + "@" + server` is, when the user part has none. */
  lemma SplitAtSign(user: string, server: string)
    requires '@' !in user
    ensures var j := user + "@" + server;
      |user| < |j| && j[|user|] == '@' && j[..|user|] == user && j[|user| + 1..] == server
  {
  }

  /** Normalising a trimmed string whose first `@` is at `at`. */
  lemma NormalizeAt(t: string, at: nat)
    requires Trimmed(t) && at < |t| && t[at] == '@' && '@' !in t[..at]
    ensures NormalizeUserJid(t) == Assemble(BeforeFirst(t[..at], ':'), Lower(t[at + 1..]))
  {
    TrimOfTrimmed(t);
    SplitAt(t, at);
  }

  lemma SplitAt(t: string, at: nat)
    requires Trimmed(t) && at < |t| && t[at] == '@' && '@' !in t[..at]
    ensures SplitTrimmed(t) == Assemble(BeforeFirst(t[..at], ':'), Lower(t[at + 1..]))
  {
    IndexOfFirst(t, '@', at);
  }

  /** A canonical identifier is exactly one that normalisation leaves as it is. */
  lemma NormalizeFixesCanonical(j: string)
    ensures NormalizeUserJid(j) == Some(j) <==> Canonical(j)
  {
    if Canonical(j) {
      var i := IndexOf(j, '@').value;
      NormalizeAt(j, i);
      Rejoin(j, i);
    }
  }

  lemma Rejoin(j: string, i: nat)
    requires i < |j| && j[i] == '@'
    ensures j[..i] + "@" + j[i + 1..] == j
  {
  }

  /** Normalising a normalised identifier returns it unchanged. */
  lemma NormalizeIdempotent(s: string)
    requires NormalizeUserJid(s).Some?
    ensures NormalizeUserJid(NormalizeUserJid(s).value) == NormalizeUserJid(s)
  {
    NormalizeFixesCanonical(NormalizeUserJid(s).value);
  }

  /** Normalising `user@server` when the user part has no `@` and nothing is left to trim. */
  lemma NormalizeJoin(user: string, server: string)
    requires user != [] && !IsSpace(user[0]) && '@' !in user
    requires server != [] && !IsSpace(server[|server| - 1])
    ensures NormalizeUserJid(user + "@" + server) == Assemble(BeforeFirst(user, ':'), Lower(server))
  {
    SplitAtSign(user, server);
    NormalizeAt(user + "@" + server, |user|);
  }

  /** The device suffix after `:` in the user part is dropped. */
  lemma NormalizeDropsDevice(user: string, device: string, server: string)
    requires user != [] && !IsSpace(user[0]) && ':' !in user && '@' !in user && '@' !in device
    requires server != [] && !IsSpace(server[|server| - 1])
    ensures NormalizeUserJid(user + ":" + device + "@" + server) == NormalizeUserJid(user + "@" + server)
  {
    var withDevice := user + ":" + device;
    DropDevice(user, device);
    NormalizeJoin(withDevice, server);
    NormalizeJoin(user, server);
  }

  lemma DropDevice(user: string, device: string)
    requires user != [] && ':' !in user && '@' !in user && '@' !in device
    ensures var withDevice := user + ":" + device;
      withDevice[0] == user[0] && '@' !in withDevice && BeforeFirst(withDevice, ':') == user
  {
    var withDevice := user + ":" + device;
    assert withDevice[|user|] == ':' && withDevice[..|user|] == user;
    IndexOfFirst(withDevice, ':', |user|);
  }

  /** Only the server part is lower-cased: its case does not matter, and the user part keeps its own. */
  lemma NormalizeLowersServer(user: string, server: string)
    requires user != [] && !IsSpace(user[0]) && ':' !in user && '@' !in user
    requires server != [] && !IsSpace(server[|server| - 1])
    ensures NormalizeUserJid(user + "@" + server) == NormalizeUserJid(user + "@" + Lower(server))
    ensures NormalizeUserJid(user + "@" + server).Some? ==>
              NormalizeUserJid(user + "@" + server).value == user + "@" + Lower(server)
  {
    NormalizeJoin(user, server);
    NormalizeJoin(user, Lower(server));
    LowerIdempotent(server);
  }

  /** The user part of a JID: everything before the first `@` (`jid.split('@')[0]`). */
  function UserPart(j: string): (u: string)
    ensures '@' !in u && StartsWith(j, u)
    ensures Canonical(j) ==> u != []
  {
    BeforeFirst(j, '@')
  }

  predicate AllCanonical(xs: seq<string>) {
    forall k :: 0 <= k < |xs| ==> Canonical(xs[k])
  }

  /** De-duplicating a list of normalised identifiers leaves normalised identifiers. */
  lemma CanonicalDedup(xs: seq<string>)
    requires AllCanonical(xs)
    ensures AllCanonical(Dedup(xs))
  {
    forall k | 0 <= k < |Dedup(xs)| ensures Canonical(Dedup(xs)[k]) {
      var x := Dedup(xs)[k];
      assert x in xs;
      var i :| 0 <= i < |xs| && xs[i] == x;
    }
  }

  /** Part of a list of normalised identifiers. */
  lemma CanonicalMinus(a: seq<string>, b: seq<string>)
    requires AllCanonical(a)
    ensures AllCanonical(Minus(a, b))
  {
    forall k | 0 <= k < |Minus(a, b)| ensures Canonical(Minus(a, b)[k]) {
      assert Minus(a, b)[k] in a;
      var i :| 0 <= i < |a| && a[i] == Minus(a, b)[k];
    }
  }

  /** `raw.map(normalizeUserJid).filter(Boolean)`. */
  function NormalizeAll(raw: seq<string>): (r: seq<string>)
    ensures |r| <= |raw|
    ensures AllCanonical(r)
  {
    if raw == [] then []
    else
      match NormalizeUserJid(raw[0])
      case None => NormalizeAll(raw[1..])
      case Some(j) =>
        var rest := NormalizeAll(raw[1..]);
        AllCanonicalCons(j, rest);
        [j] + rest
  }

  lemma AllCanonicalCons(j: string, rest: seq<string>)
    requires Canonical(j) && AllCanonical(rest)
    ensures AllCanonical([j] + rest)
  {
    AllCons(Canonical, j, rest);
  }

  /** Normalising two lists one after the other. */
  lemma {:induction false} NormalizeAllAppend(a: seq<string>, b: seq<string>)
    ensures NormalizeAll(a + b) == NormalizeAll(a) + NormalizeAll(b)
    decreases |a|
  {
    if a == [] {
      assert a + b == b;
    } else {
      assert (a + b)[0] == a[0] && (a + b)[1..] == a[1..] + b;
      NormalizeAllAppend(a[1..], b);
    }
  }

  /** The normalisation of every raw entry, in order. */
  function NormalizedOpts(raw: seq<string>): (r: seq<Option<string>>)
    ensures |r| == |raw| && forall i :: 0 <= i < |raw| ==> r[i] == NormalizeUserJid(raw[i])
  {
    seq(|raw|, i requires 0 <= i < |raw| => NormalizeUserJid(raw[i]))
  }

  lemma {:induction false} NormalizeAllSomes(raw: seq<string>)
    ensures NormalizeAll(raw) == Somes(NormalizedOpts(raw))
    decreases |raw|
  {
    if raw != [] {
      var os := NormalizedOpts(raw);
      NormalizeAllSomes(raw[1..]);
      assert os[1..] == NormalizedOpts(raw[1..]);
      assert Somes(os) == (if os[0].Some? then [os[0].value] else []) + Somes(os[1..]);
    }
  }

  /** A list of normalised identifiers normalises to itself. */
  lemma NormalizeAllOfCanonical(xs: seq<string>)
    requires AllCanonical(xs)
    ensures NormalizeAll(xs) == xs
  {
    var os := NormalizedOpts(xs);
    forall k | 0 <= k < |xs| ensures os[k] == Some(xs[k]) {
      NormalizeFixesCanonical(xs[k]);
    }
    NormalizeAllSomes(xs);
    SomesOfAll(os, xs);
  }

  /** The normalised list holds exactly the identifiers some raw entry normalises to. */
  lemma NormalizeAllMembers(raw: seq<string>, x: string)
    ensures x in NormalizeAll(raw) <==> exists i :: 0 <= i < |raw| && NormalizeUserJid(raw[i]) == Some(x)
  {
    NormalizeAllSomes(raw);
    SomesMember(NormalizedOpts(raw), x);
  }

  /** The user parts shown by `formatJids`. */
  function UserIds(raw: seq<string>): (ids: seq<string>)
    ensures |ids| == |NormalizeAll(raw)|
    ensures forall k :: 0 <= k < |ids| ==> ids[k] == UserPart(NormalizeAll(raw)[k]) && ids[k] != []
  {
    var n := NormalizeAll(raw);
    seq(|n|, k requires 0 <= k < |n| => UserPart(n[k]))
  }

  /**
   * `formatJids`: at most `limit` user parts joined by ", ", and a ` ... (+k)`
   * tail counting the ones left out.
   */
  function FormatJids(raw: seq<string>, limit: nat): (r: string)
    ensures UserIds(raw) == [] ==> r == ""
    ensures 0 < |UserIds(raw)| <= limit ==> r == Join(UserIds(raw), ", ")
    ensures |UserIds(raw)| > limit ==>
              r == Join(UserIds(raw)[..limit], ", ") + " ... (+" + NatToString(|UserIds(raw)| - limit) + ")"
  {
    var ids := UserIds(raw);
    if |ids| == 0 then ""
    else
      var head := Join(ids[..if |ids| < limit then |ids| else limit], ", ");
      if |ids| <= limit then
        assert ids[..|ids|] == ids;
        head
      else head + " ... (+" + NatToString(|ids| - limit) + ")"
  }

  /** `jidMentionTag`: `@` and the user part of the normalised JID, or empty. */
  function JidMentionTag(j: string): (r: string)
    ensures NormalizeUserJid(j).None? <==> r == ""
    ensures NormalizeUserJid(j).Some? ==> r == "@" + UserPart(NormalizeUserJid(j).value)
  {
    match NormalizeUserJid(j)
    case None => ""
    case Some(u) => "@" + UserPart(u)
  }
}
