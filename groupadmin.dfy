/**
 * The group-admin service: a per-group cache of group metadata with a time to
 * live, the admin lookup that answers `ok`/`isAdmin` (where `ok == false` means
 * the metadata could not be fetched), the bot's own identifier, and the
 * clean-up of a list of command targets.
 *
 * Fetching metadata is a call into the WhatsApp connection: the model receives
 * what that call would produce, `Threw` or the metadata, as a parameter.
 */
module GroupAdmin {
  import opened Wrappers
  import opened Seqs
  import opened Jid

  /** The metadata time to live in milliseconds. */
  const DefaultTtlMs: int := 30000

  /**
   * A participant record: its identifier fields (`id`, `jid`, `participant`) and
   * its `admin` role (`"admin"`, `"superadmin"` or absent). A missing record
   * behaves like one with no fields.
   */
  datatype Participant = Participant(
    id: Option<string>,
    jid: Option<string>,
    participant: Option<string>,
    admin: Option<string>)

  /** Group metadata; `participants` is `None` when the field is not an array. */
  datatype GroupMeta = GroupMeta(participants: Option<seq<Participant>>)

  /** What fetching metadata gives: an exception, or the value (possibly `null`). */
  datatype Fetch = Threw | Got(meta: Option<GroupMeta>)

  datatype CacheEntry = CacheEntry(ts: int, data: Option<GroupMeta>)

  /** The three-valued answer of `getAdminStatus`. */
  datatype AdminStatus = AdminStatus(ok: bool, isAdmin: bool)

  /** A present, non-empty string: JavaScript truthiness for an optional string. */
  predicate Present(s: Option<string>) {
    s.Some? && s.value != ""
  }

  /** `a || b`, with `None` for a falsy result. */
  function OrElse(a: Option<string>, b: Option<string>): (r: Option<string>)
    ensures Present(a) ==> r == a
    ensures !Present(a) ==> r == (if Present(b) then b else None)
  {
    if Present(a) then a else if Present(b) then b else None
  }

  /** The normalised identifier of a participant: its first non-empty of `id`, `jid`, `participant`. */
  function ParticipantId(p: Participant): (r: Option<string>)
    ensures r.Some? ==> Canonical(r.value)
    ensures Present(p.id) ==> r == NormalizeUserJid(p.id.value)
    ensures !Present(p.id) && !Present(p.jid) && !Present(p.participant) ==> r.None?
  {
    match OrElse(p.id, OrElse(p.jid, p.participant))
    case None => None
    case Some(raw) => NormalizeUserJid(raw)
  }

  predicate IsAdmin(p: Participant) {
    Present(p.admin)
  }

  /** The admin role of the first participant whose identifier is `user`; false when none has it. */
  function AdminBy(parts: seq<Participant>, user: string): bool {
    if parts == [] then false
    else if ParticipantId(parts[0]) == Some(user) then IsAdmin(parts[0])
    else AdminBy(parts[1..], user)
  }

  /** One step of the search, from position `i`. */
  lemma AdminByStep(parts: seq<Participant>, i: nat, user: string)
    requires i < |parts|
    ensures AdminBy(parts[i..], user) ==
              if ParticipantId(parts[i]) == Some(user) then IsAdmin(parts[i]) else AdminBy(parts[i + 1..], user)
  {
    assert parts[i..][0] == parts[i];
    assert parts[i..][1..] == parts[i + 1..];
  }

  /** The normalised identifiers of the participants, in order. */
  function ParticipantIds(parts: seq<Participant>): (ids: seq<Option<string>>)
    ensures |ids| == |parts|
  {
    if parts == [] then [] else [ParticipantId(parts[0])] + ParticipantIds(parts[1..])
  }

  lemma {:induction false} ParticipantIdsAt(parts: seq<Participant>, j: nat)
    requires j < |parts|
    ensures ParticipantIds(parts)[j] == ParticipantId(parts[j])
    decreases j
  {
    if j > 0 {
      ParticipantIdsAt(parts[1..], j - 1);
    }
  }

  /** The index of the first identifier equal to `user`. */
  function FirstMatch(ids: seq<Option<string>>, user: string): (r: Option<nat>)
    ensures r.Some? ==> r.value < |ids| && ids[r.value] == Some(user)
    ensures r.Some? ==> forall j :: 0 <= j < r.value ==> ids[j] != Some(user)
    ensures r.None? <==> forall j :: 0 <= j < |ids| ==> ids[j] != Some(user)
  {
    if ids == [] then None
    else if ids[0] == Some(user) then Some(0)
    else
      match FirstMatch(ids[1..], user)
      case None =>
        assert forall j :: 1 <= j < |ids| ==> ids[j] == ids[1..][j - 1];
        None
      case Some(k) =>
        assert forall j :: 1 <= j < k + 1 ==> ids[j] == ids[1..][j - 1];
        Some(k + 1)
  }

  /**
   * The search answers with the admin role of the participant at the first
   * position whose identifier is the user's, and false when there is none.
   */
  lemma {:induction false} AdminByFirst(parts: seq<Participant>, user: string)
    ensures var k := FirstMatch(ParticipantIds(parts), user);
      AdminBy(parts, user) == (k.Some? && IsAdmin(parts[k.value]))
    decreases |parts|
  {
    if parts != [] {
      var ids, rest := ParticipantIds(parts), parts[1..];
      assert ids[0] == ParticipantId(parts[0]) && ids[1..] == ParticipantIds(rest);
      if ids[0] != Some(user) {
        AdminByFirst(rest, user);
        var k := FirstMatch(ParticipantIds(rest), user);
        if k.Some? {
          assert parts[k.value + 1] == rest[k.value];
        }
      }
    }
  }

  /**
   * The participant search of `getAdminStatus`: the first participant whose
   * identifier is the user's decides; none (or a user that does not normalise)
   * means not an admin.
   */
  method FindAdmin(parts: seq<Participant>, user: Option<string>) returns (isAdmin: bool)
    ensures user.None? ==> !isAdmin
    ensures user.Some? ==> isAdmin == AdminBy(parts, user.value)
  {
    var i := 0;
    while i < |parts|
      invariant 0 <= i <= |parts|
      invariant user.Some? ==> AdminBy(parts[i..], user.value) == AdminBy(parts, user.value)
    {
      var pid := ParticipantId(parts[i]);
      if user.Some? {
        AdminByStep(parts, i, user.value);
      }
      if pid.None? {
        i := i + 1;
        continue;
      }
      if pid != user {
        i := i + 1;
        continue;
      }
      return IsAdmin(parts[i]);
    }
    assert parts[i..] == [];
    return false;
  }

  /** The answer of `getAdminStatus` once the metadata has been obtained (or not). */
  function StatusOf(fetched: Fetch, userJid: string): (s: AdminStatus)
    ensures fetched.Threw? <==> !s.ok
    ensures s.isAdmin ==> s.ok
  {
    match fetched
    case Threw => AdminStatus(false, false)
    case Got(meta) =>
      if meta.None? || meta.value.participants.None? then AdminStatus(true, false)
      else
        match NormalizeUserJid(userJid)
        case None => AdminStatus(true, false)
        case Some(u) => AdminStatus(true, AdminBy(meta.value.participants.value, u))
  }

  /**
   * The user is an admin exactly when the metadata lists participants, the
   * user's identifier normalises, and the first participant carrying it has an
   * admin role.
   */
  lemma StatusAdmin(fetched: Fetch, userJid: string)
    ensures StatusOf(fetched, userJid).isAdmin <==>
              && fetched.Got? && fetched.meta.Some? && fetched.meta.value.participants.Some?
              && NormalizeUserJid(userJid).Some?
              && var parts := fetched.meta.value.participants.value;
                 var k := FirstMatch(ParticipantIds(parts), NormalizeUserJid(userJid).value);
                 k.Some? && IsAdmin(parts[k.value])
  {
    if fetched.Got? && fetched.meta.Some? && fetched.meta.value.participants.Some? && NormalizeUserJid(userJid).Some? {
      AdminByFirst(fetched.meta.value.participants.value, NormalizeUserJid(userJid).value);
    }
  }

  /** The first participant carrying the user's identifier decides, whatever comes after it. */
  lemma FirstMatchDecides(p: Participant, rest: seq<Participant>, userJid: string)
    requires NormalizeUserJid(userJid).Some? && ParticipantId(p) == NormalizeUserJid(userJid)
    ensures StatusOf(Got(Some(GroupMeta(Some([p] + rest)))), userJid) == AdminStatus(true, IsAdmin(p))
  {
    var parts, u := [p] + rest, NormalizeUserJid(userJid).value;
    assert parts[0] == p;
    assert AdminBy(parts, u) == IsAdmin(p);
  }

  /** `getBotJid`: the normalised `user.id`, or `user.jid` when `id` is empty. */
  function BotJid(id: Option<string>, jid: Option<string>): (r: Option<string>)
    ensures r.Some? ==> Canonical(r.value)
    ensures Present(id) ==> r == NormalizeUserJid(id.value)
    ensures !Present(id) && Present(jid) ==> r == NormalizeUserJid(jid.value)
    ensures !Present(id) && !Present(jid) ==> r.None?
  {
    match OrElse(id, jid)
    case None => None
    case Some(raw) => NormalizeUserJid(raw)
  }

  /** The bot, as a list of zero or one identifiers. */
  function BotList(bot: Option<string>): seq<string> {
    if bot.Some? then [bot.value] else []
  }

  /**
   * `sanitizeTargets`: the targets normalised, the un-normalisable ones dropped,
   * repeats removed keeping first occurrences, and the bot taken out.
   */
  function SanitizeTargets(bot: Option<string>, targets: seq<string>): (r: seq<string>)
    ensures NoDup(r) && AllCanonical(r)
    ensures bot.Some? ==> bot.value !in r
    ensures |r| <= |targets|
  {
    var unique := Dedup(NormalizeAll(targets));
    CanonicalDedup(NormalizeAll(targets));
    CanonicalMinus(unique, BotList(bot));
    Minus(unique, BotList(bot))
  }

  /** The sanitised list holds exactly the identifiers some target normalises to, other than the bot. */
  lemma SanitizeMembers(bot: Option<string>, targets: seq<string>, x: string)
    ensures x in SanitizeTargets(bot, targets) <==>
              (exists i :: 0 <= i < |targets| && NormalizeUserJid(targets[i]) == Some(x)) && bot != Some(x)
  {
    NormalizeAllMembers(targets, x);
  }

  /** Sanitising an already sanitised list changes nothing. */
  lemma SanitizeIdempotent(bot: Option<string>, targets: seq<string>)
    ensures SanitizeTargets(bot, SanitizeTargets(bot, targets)) == SanitizeTargets(bot, targets)
  {
    var r := SanitizeTargets(bot, targets);
    NormalizeAllOfCanonical(r);
    DedupOfNoDup(r);
    if bot.Some? {
      MinusAbsent(r, bot.value);
    } else {
      MinusNothing(r);
    }
  }

  /**
   * Sanitising keeps first-occurrence order: more targets after the given ones
   * only add identifiers after those the given ones produce.
   */
  lemma SanitizeAppend(bot: Option<string>, a: seq<string>, b: seq<string>)
    ensures SanitizeTargets(bot, a) <= SanitizeTargets(bot, a + b)
  {
    var na, nb := NormalizeAll(a), NormalizeAll(b);
    NormalizeAllAppend(a, b);
    DedupMinusPrefix(na, nb, BotList(bot));
  }

  /** A cache entry younger than the time to live answers without a fetch. */
  predicate Fresh(entries: map<string, CacheEntry>, ttl: int, gid: string, now: int) {
    gid in entries && now - entries[gid].ts < ttl
  }

  /** An entry stored at `now` stays fresh exactly while less than `ttl` has elapsed. */
  lemma FreshAfterStore(entries: map<string, CacheEntry>, ttl: int, gid: string, data: Option<GroupMeta>, now: int, later: int)
    ensures Fresh(entries[gid := CacheEntry(now, data)], ttl, gid, later) <==> later - now < ttl
  {
  }

  /** Storing one group's metadata leaves every other group's freshness unchanged. */
  lemma FreshOthers(entries: map<string, CacheEntry>, ttl: int, gid: string, other: string, data: Option<GroupMeta>, now: int, later: int)
    requires other != gid
    ensures Fresh(entries[gid := CacheEntry(now, data)], ttl, other, later) == Fresh(entries, ttl, other, later)
  {
  }

  /** The metadata a lookup in `gid` works from: the cached data while fresh, otherwise the fetch. */
  function Seen(entries: map<string, CacheEntry>, ttl: int, gid: string, now: int, fetch: Fetch): Fetch {
    if Fresh(entries, ttl, gid, now) then Got(entries[gid].data) else fetch
  }

  /** The cache after a lookup in `gid`: a fetch that answered is stored with the current time. */
  function AfterLookup(entries: map<string, CacheEntry>, ttl: int, gid: string, now: int, fetch: Fetch): map<string, CacheEntry> {
    if Fresh(entries, ttl, gid, now) || fetch.Threw? then entries else entries[gid := CacheEntry(now, fetch.meta)]
  }

  /**
   * Within one clock reading and one answer from the server, a second lookup in the
   * same group sees the same metadata as the first and leaves the cache as the
   * first left it: all the lookups made while handling one message agree.
   */
  lemma LookupsAgree(entries: map<string, CacheEntry>, ttl: int, gid: string, now: int, fetch: Fetch)
    ensures Seen(AfterLookup(entries, ttl, gid, now, fetch), ttl, gid, now, fetch) == Seen(entries, ttl, gid, now, fetch)
    ensures AfterLookup(AfterLookup(entries, ttl, gid, now, fetch), ttl, gid, now, fetch) == AfterLookup(entries, ttl, gid, now, fetch)
  {
    if !Fresh(entries, ttl, gid, now) && fetch.Got? {
      var e := entries[gid := CacheEntry(now, fetch.meta)];
      if Fresh(e, ttl, gid, now) {
        assert Seen(e, ttl, gid, now, fetch) == Got(fetch.meta);
      } else {
        assert e[gid := CacheEntry(now, fetch.meta)] == e;
      }
    }
  }

  /** What `getAdminStatus` answers for a group and a user, given the cache before the call. */
  function StatusFor(entries: map<string, CacheEntry>, ttl: int, gid: Option<string>, userJid: Option<string>, now: int, fetch: Fetch): AdminStatus {
    if Present(gid) && Present(userJid) then StatusOf(Seen(entries, ttl, gid.value, now, fetch), userJid.value)
    else AdminStatus(true, false)
  }

  /** The cache after `getAdminStatus` for a group and a user. */
  function CacheFor(entries: map<string, CacheEntry>, ttl: int, gid: Option<string>, userJid: Option<string>, now: int, fetch: Fetch): map<string, CacheEntry> {
    if Present(gid) && Present(userJid) then AfterLookup(entries, ttl, gid.value, now, fetch) else entries
  }

  /** The service instance: the metadata cache and its time to live. */
  class Service {
    var cache: map<string, CacheEntry>
    const ttl: int

    constructor(ttl: int)
      ensures this.ttl == ttl && cache == map[]
    {
      this.ttl := ttl;
      cache := map[];
    }

    /**
     * `getGroupMetadata`: the cached data while it is fresh; otherwise what the
     * fetch gives, stored with the current time. An exception propagates and
     * leaves the cache as it was.
     */
    method GetGroupMetadata(gid: string, now: int, fetch: Fetch) returns (r: Fetch)
      modifies this
      ensures Fresh(old(cache), ttl, gid, now) ==> r == Got(old(cache)[gid].data) && cache == old(cache)
      ensures !Fresh(old(cache), ttl, gid, now) && fetch.Threw? ==> r == Threw && cache == old(cache)
      ensures !Fresh(old(cache), ttl, gid, now) && fetch.Got? ==>
                r == fetch && cache == old(cache)[gid := CacheEntry(now, fetch.meta)]
    {
      if gid in cache && now - cache[gid].ts < ttl {
        return Got(cache[gid].data);
      }
      if fetch.Threw? {
        return Threw;
      }
      cache := cache[gid := CacheEntry(now, fetch.meta)];
      return fetch;
    }

    /**
     * `getAdminStatus`: a missing group or user is "not an admin" without a lookup;
     * otherwise the metadata is obtained through the cache and `StatusOf` answers.
     */
    method GetAdminStatus(gid: Option<string>, userJid: Option<string>, now: int, fetch: Fetch) returns (s: AdminStatus)
      modifies this
      ensures !Present(gid) || !Present(userJid) ==> s == AdminStatus(true, false) && cache == old(cache)
      ensures Present(gid) && Present(userJid) && Fresh(old(cache), ttl, gid.value, now) ==>
                s == StatusOf(Got(old(cache)[gid.value].data), userJid.value) && cache == old(cache)
      ensures Present(gid) && Present(userJid) && !Fresh(old(cache), ttl, gid.value, now) ==>
                s == StatusOf(fetch, userJid.value)
                && cache == (if fetch.Threw? then old(cache) else old(cache)[gid.value := CacheEntry(now, fetch.meta)])
      ensures Present(gid) && Present(userJid) ==>
                s == StatusOf(Seen(old(cache), ttl, gid.value, now, fetch), userJid.value)
                && cache == AfterLookup(old(cache), ttl, gid.value, now, fetch)
      ensures s == StatusFor(old(cache), ttl, gid, userJid, now, fetch) && cache == CacheFor(old(cache), ttl, gid, userJid, now, fetch)
    {
      if !Present(gid) || !Present(userJid) {
        return AdminStatus(true, false);
      }
      var meta := GetGroupMetadata(gid.value, now, fetch);
      if meta.Threw? {
        return AdminStatus(false, false);
      }
      if meta.meta.None? || meta.meta.value.participants.None? {
        return AdminStatus(true, false);
      }
      var isAdmin := FindAdmin(meta.meta.value.participants.value, NormalizeUserJid(userJid.value));
      return AdminStatus(true, isAdmin);
    }
  }
}
