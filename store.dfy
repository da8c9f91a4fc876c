/**
 * The bot's persistent store: the allowlist and the per-group settings, held in
 * memory as one document and written back to the store file after a change.
 * Operations run one at a time, in the order they were queued, so each is
 * modelled as one atomic step on the document. The clock is read by
 * `ensureGroup` (`now`) and, in the mute operations, once more (`later`).
 */
module Storage {
  import opened Wrappers
  import opened Text
  import opened Seqs
  import opened Jid
  import opened JsonValue
  import opened Normalize

  /** What reading the store file produced. */
  datatype LoadOutcome = Missing | Unreadable | Parsed(doc: Json)

  /** `{ added, total }` and `{ removed, total }`. */
  datatype Count = Count(changed: nat, total: nat)

  /** `{ added, updated, total }` of `addMutes`. */
  datatype MuteCount = MuteCount(added: nat, updated: nat, total: nat)

  /** `{ muted, until }` of `getMute`. */
  datatype MuteStatus = MuteStatus(muted: bool, until: Option<int>)

  /** The switches and the phrases `getModeration` reports. */
  datatype ModerationView = ModerationView(moderation: Moderation, bannedWords: seq<string>)

  /** The switches and phrases `getModeration` reports for a group at `now`; nothing for a non-group id. */
  function ModerationAt(d: StoreData, gid: string, now: int): Option<ModerationView> {
    if IsGroupJid(gid) then Some(ModerationView(GroupAt(d, gid, now).moderation, GroupAt(d, gid, now).bannedWords)) else None
  }

  /** The welcome settings `getWelcome` reports for a group at `now`, the template normalised once more; nothing for a non-group id. */
  function WelcomeAt(d: StoreData, gid: string, now: int): (r: Option<Welcome>)
    ensures r.Some? <==> IsGroupJid(gid)
  {
    if IsGroupJid(gid) then
      var w := GroupAt(d, gid, now).welcome;
      Some(Welcome(w.enabled, NormalizeWelcomeTemplate(w.template)))
    else None
  }

  /** The document after `getWelcome` at `now`: the group normalised, its template normalised once more. */
  function AfterWelcomeRead(d: StoreData, gid: string, now: int): StoreData {
    if IsGroupJid(gid) then PutGroup(d, gid, GroupAt(d, gid, now).(welcome := WelcomeAt(d, gid, now).value)) else d
  }

  /** `{ ok, value }` of the setters. */
  datatype Outcome = Outcome(ok: bool, value: bool)

  /** `{ ok, template }` of `setWelcomeTemplate`. */
  datatype TemplateOutcome = TemplateOutcome(ok: bool, template: string)

  // ----- lists of users -------------------------------------------------------

  /** Some raw entry of `userJids` normalises to `x`. */
  predicate Named(userJids: seq<string>, x: string) {
    exists i :: 0 <= i < |userJids| && NormalizeUserJid(userJids[i]) == Some(x)
  }

  /** `uniq(userJids.map(normalizeUserJid).filter(Boolean))`: the distinct users named, in order of appearance. */
  function Incoming(userJids: seq<string>): (r: seq<string>)
    ensures NoDup(r) && AllCanonical(r)
  {
    CanonicalDedup(NormalizeAll(userJids));
    Dedup(NormalizeAll(userJids))
  }

  /** The incoming users are exactly the users named. */
  lemma IncomingMembers(userJids: seq<string>, x: string)
    ensures x in Incoming(userJids) <==> Named(userJids, x)
  {
    NormalizeAllMembers(userJids, x);
  }

  /** `list.includes(normalizeUserJid(userJid))`. */
  predicate Listed(list: seq<string>, userJid: string) {
    NormalizeUserJid(userJid).Some? && NormalizeUserJid(userJid).value in list
  }

  /** A list after adding users: the old list, then the new users in order of appearance. */
  function Added(list: seq<string>, userJids: seq<string>): seq<string> {
    list + Minus(Incoming(userJids), list)
  }

  /** A list after removing users. */
  function Removed(list: seq<string>, userJids: seq<string>): seq<string> {
    Minus(list, Incoming(userJids))
  }

  /** Two lists of normalised identifiers: the first followed by what the second adds. */
  lemma CanonicalAdded(a: seq<string>, b: seq<string>)
    requires AllCanonical(a) && AllCanonical(b)
    ensures AllCanonical(a + Minus(b, a))
  {
    var c := a + Minus(b, a);
    forall k | 0 <= k < |c| ensures Canonical(c[k]) {
      if k >= |a| {
        assert c[k] in Minus(b, a);
        var i :| 0 <= i < |b| && b[i] == c[k];
      }
    }
  }

  /**
   * Adding keeps the list a list of distinct normalised users, keeps the old users
   * in front, holds exactly the old users and the users named, and grows by the
   * number of named users that were not there.
   */
  lemma AddedSpec(list: seq<string>, userJids: seq<string>, x: string)
    requires NoDup(list) && AllCanonical(list)
    ensures var r := Added(list, userJids);
      && NoDup(r) && AllCanonical(r) && r[..|list|] == list
      && (x in r <==> x in list || Named(userJids, x))
      && |r| - |list| == |Elems(Incoming(userJids)) - Elems(list)|
  {
    NoDupAppendMinus(list, Incoming(userJids));
    CanonicalAdded(list, Incoming(userJids));
    IncomingMembers(userJids, x);
    CountNew(Incoming(userJids), list);
  }

  /**
   * Removing keeps distinct normalised users, holds exactly the old users that were
   * not named, and shrinks by the number of named users that were there.
   */
  lemma RemovedSpec(list: seq<string>, userJids: seq<string>, x: string)
    requires NoDup(list) && AllCanonical(list)
    ensures var r := Removed(list, userJids);
      && NoDup(r) && AllCanonical(r)
      && (x in r <==> x in list && !Named(userJids, x))
      && |list| - |r| == |Elems(list) * Elems(Incoming(userJids))|
  {
    CanonicalMinus(list, Incoming(userJids));
    IncomingMembers(userJids, x);
    CountRemoved(list, Incoming(userJids));
  }

  /** Every user named is listed after adding, and none is after removing. */
  lemma ListedAfterChange(list: seq<string>, userJids: seq<string>, u: string)
    requires u in userJids && NormalizeUserJid(u).Some?
    ensures Listed(Added(list, userJids), u)
    ensures !Listed(Removed(list, userJids), u)
  {
    var i :| 0 <= i < |userJids| && userJids[i] == u;
    IncomingMembers(userJids, NormalizeUserJid(u).value);
  }

  /** Removing the users just added leaves the list as if only the removal had happened. */
  lemma RemoveAfterAdd(list: seq<string>, userJids: seq<string>)
    ensures Removed(Added(list, userJids), userJids) == Removed(list, userJids)
  {
    AddThenRemove(list, Incoming(userJids));
  }

  /** The loop of `addAllowlist` and `addBans`: each incoming user not yet present is appended. */
  method AppendNew(current: seq<string>, incoming: seq<string>) returns (members: seq<string>, added: nat)
    requires NoDup(incoming)
    ensures members == current + Minus(incoming, current)
    ensures added == |members| - |current|
  {
    members := current;
    added := 0;
    var i := 0;
    ghost var seen: seq<string> := [];
    assert current + [] == current;
    while i < |incoming|
      invariant 0 <= i <= |incoming| && seen == incoming[..i]
      invariant members == current + Minus(seen, current)
      invariant added == |members| - |current|
    {
      var jid := incoming[i];
      NoDupFresh(incoming, i);
      AppendNewStep(current, seen, jid);
      if jid !in members {
        members := members + [jid];
        added := added + 1;
      }
      assert incoming[..i + 1] == seen + [jid];
      seen := seen + [jid];
      i := i + 1;
    }
    assert incoming[..|incoming|] == incoming;
  }

  /** One turn of `AppendNew`'s loop, over the users looked at so far. */
  lemma AppendNewStep(current: seq<string>, seen: seq<string>, jid: string)
    requires jid !in seen
    ensures var m := current + Minus(seen, current);
      && (jid in m <==> jid in current)
      && current + Minus(seen + [jid], current) == if jid in current then m else m + [jid]
  {
    var done := Minus(seen, current);
    MinusAppendLeft(seen, [jid], current);
    MinusSingle(jid, current);
    if jid in current {
      assert done + [] == done;
    } else {
      AppendAssoc(current, done, [jid]);
    }
  }

  /** The loop of `removeAllowlist` and `removeBans`: each incoming user present is deleted. */
  method DeleteAll(current: seq<string>, incoming: seq<string>) returns (members: seq<string>, removed: nat)
    requires NoDup(current)
    ensures members == Minus(current, incoming)
    ensures removed == |current| - |members|
  {
    members := current;
    removed := 0;
    var i := 0;
    ghost var seen: seq<string> := [];
    MinusNothing(current);
    while i < |incoming|
      invariant 0 <= i <= |incoming| && seen == incoming[..i]
      invariant members == Minus(current, seen)
      invariant NoDup(members) && removed == |current| - |members|
    {
      var jid := incoming[i];
      MinusSnocRight(current, seen, jid);
      MinusOneLength(members, jid);
      if jid in members {
        members := Minus(members, [jid]);
        removed := removed + 1;
      } else {
        MinusAbsent(members, jid);
      }
      assert incoming[..i + 1] == seen + [jid];
      seen := seen + [jid];
      i := i + 1;
    }
    assert incoming[..|incoming|] == incoming;
  }

  // ----- mute maps ------------------------------------------------------------

  /** The loop of `addMutes` as a specification: each incoming user gets the mute in turn. */
  function AddAll(ms: seq<MuteEntry>, incoming: seq<string>, until: Option<int>): seq<MuteEntry> {
    if incoming == [] then ms
    else PutMute(AddAll(ms, incoming[..|incoming| - 1], until), incoming[|incoming| - 1], until)
  }

  /** The incoming users whose earlier mute differs from `until`, in order. */
  function Changed(ms: seq<MuteEntry>, incoming: seq<string>, until: Option<int>): seq<string> {
    if incoming == [] then []
    else
      var j := incoming[|incoming| - 1];
      Changed(ms, incoming[..|incoming| - 1], until)
        + (if MuteOf(ms, j).Some? && MuteOf(ms, j).value != until then [j] else [])
  }

  /** The loop of `removeMutes` as a specification: each incoming user's mute is deleted in turn. */
  function RemoveAll(ms: seq<MuteEntry>, incoming: seq<string>): (r: seq<MuteEntry>)
    ensures |r| <= |ms|
  {
    if incoming == [] then ms
    else DeleteMute(RemoveAll(ms, incoming[..|incoming| - 1]), incoming[|incoming| - 1])
  }

  /** After adding, every incoming user has the new mute and every other user keeps theirs. */
  lemma {:induction false} AddAllLookup(ms: seq<MuteEntry>, incoming: seq<string>, until: Option<int>, j: string)
    ensures MuteOf(AddAll(ms, incoming, until), j) == if j in incoming then Some(until) else MuteOf(ms, j)
    decreases |incoming|
  {
    if incoming != [] {
      var init := incoming[..|incoming| - 1];
      assert incoming == init + [incoming[|incoming| - 1]];
      AddAllLookup(ms, init, until, j);
      PutMuteLookup(AddAll(ms, init, until), incoming[|incoming| - 1], until, j);
    }
  }

  /** Adding keeps the users of the map in place and appends the incoming users that had no mute. */
  lemma {:induction false} AddAllJids(ms: seq<MuteEntry>, incoming: seq<string>, until: Option<int>)
    requires NoDup(incoming)
    ensures MuteJids(AddAll(ms, incoming, until)) == MuteJids(ms) + Minus(incoming, MuteJids(ms))
    decreases |incoming|
  {
    if incoming == [] {
      assert MuteJids(ms) + [] == MuteJids(ms);
    } else {
      var init := incoming[..|incoming| - 1];
      var j := incoming[|incoming| - 1];
      NoDupInit(incoming);
      AddAllJids(ms, init, until);
      var J, p := MuteJids(ms), AddAll(ms, init, until);
      assert j !in Minus(init, J);
      PutMuteStep(p, j, until, J, Minus(init, J));
      assert incoming == init + [j];
      MinusAppendTail(J, init, j, MuteJids(PutMute(p, j, until)));
    }
  }

  /** The list removal of `AddAllJids`, one user longer. */
  lemma MinusAppendTail(J: seq<string>, init: seq<string>, j: string, q: seq<string>)
    requires q == J + Minus(init, J) + Minus([j], J)
    ensures q == J + Minus(init + [j], J)
  {
    MinusAppendLeft(init, [j], J);
    AppendAssoc(J, Minus(init, J), Minus([j], J));
  }

  /** One step of `AddAllJids`: the incoming user joins the list unless it was already muted. */
  lemma PutMuteStep(p: seq<MuteEntry>, j: string, until: Option<int>, J: seq<string>, D: seq<string>)
    requires MuteJids(p) == J + D && j !in D
    ensures MuteJids(PutMute(p, j, until)) == J + D + Minus([j], J)
  {
    PutMuteJids(p, j, until);
    MinusSingle(j, J);
    if j in MuteJids(p) {
      assert J + D + [] == J + D;
    } else {
      MuteJidsAppend(p, [MuteEntry(j, until)]);
      assert MuteJids([MuteEntry(j, until)]) == [j];
    }
  }

  /** Storing a mute a user already has changes nothing. */
  lemma {:induction false} PutMuteSame(ms: seq<MuteEntry>, jid: string, until: Option<int>)
    requires MuteOf(ms, jid) == Some(until)
    ensures PutMute(ms, jid, until) == ms
    decreases |ms|
  {
    if ms[0].jid == jid {
      assert [MuteEntry(jid, until)] + ms[1..] == [ms[0]] + ms[1..];
    } else {
      PutMuteSame(ms[1..], jid, until);
    }
  }

  /** Deleting a user without a mute changes nothing. */
  lemma {:induction false} DeleteAbsent(ms: seq<MuteEntry>, jid: string)
    requires MuteOf(ms, jid).None?
    ensures DeleteMute(ms, jid) == ms
    decreases |ms|
  {
    if ms != [] {
      DeleteAbsent(ms[1..], jid);
    }
  }

  /** Adding mutes for normalised users keeps a valid mute map. */
  lemma AddAllValid(ms: seq<MuteEntry>, incoming: seq<string>, until: Option<int>)
    requires ValidMutes(ms) && NoDup(incoming) && AllCanonical(incoming)
    ensures ValidMutes(AddAll(ms, incoming, until))
  {
    AddAllJids(ms, incoming, until);
    NoDupAppendMinus(MuteJids(ms), incoming);
    CanonicalAdded(MuteJids(ms), incoming);
  }

  /** After removing, the incoming users have no mute and every other user keeps theirs. */
  lemma {:induction false} RemoveAllLookup(ms: seq<MuteEntry>, incoming: seq<string>, j: string)
    ensures MuteOf(RemoveAll(ms, incoming), j) == if j in incoming then None else MuteOf(ms, j)
    decreases |incoming|
  {
    if incoming != [] {
      var init := incoming[..|incoming| - 1];
      assert incoming == init + [incoming[|incoming| - 1]];
      RemoveAllLookup(ms, init, j);
      DeleteMuteSpec(RemoveAll(ms, init), incoming[|incoming| - 1], j);
    }
  }

  /** Removing takes exactly the incoming users out of the map, keeping the order of the rest. */
  lemma {:induction false} RemoveAllJids(ms: seq<MuteEntry>, incoming: seq<string>)
    ensures MuteJids(RemoveAll(ms, incoming)) == Minus(MuteJids(ms), incoming)
    decreases |incoming|
  {
    if incoming == [] {
      MinusNothing(MuteJids(ms));
    } else {
      var init := incoming[..|incoming| - 1];
      var j := incoming[|incoming| - 1];
      assert incoming == init + [j];
      RemoveAllJids(ms, init);
      DeleteMuteSpec(RemoveAll(ms, init), j, j);
      MinusSnocRight(MuteJids(ms), init, j);
    }
  }

  /** Removing mutes keeps a valid mute map. */
  lemma RemoveAllValid(ms: seq<MuteEntry>, incoming: seq<string>)
    requires ValidMutes(ms)
    ensures ValidMutes(RemoveAll(ms, incoming))
  {
    RemoveAllJids(ms, incoming);
    CanonicalMinus(MuteJids(ms), incoming);
  }

  /** The loop of `addMutes`: a new user is added, a changed mute is replaced, an equal one is left alone. */
  method PutAll(ms: seq<MuteEntry>, incoming: seq<string>, until: Option<int>)
    returns (out: seq<MuteEntry>, added: nat, updated: nat)
    requires NoDup(incoming)
    ensures out == AddAll(ms, incoming, until)
    ensures added == |Minus(incoming, MuteJids(ms))|
    ensures updated == |Changed(ms, incoming, until)|
  {
    out := ms;
    added := 0;
    updated := 0;
    var i := 0;
    ghost var done: seq<string> := [];
    while i < |incoming|
      invariant 0 <= i <= |incoming| && done == incoming[..i]
      invariant out == AddAll(ms, done, until)
      invariant added == |Minus(done, MuteJids(ms))|
      invariant updated == |Changed(ms, done, until)|
    {
      var jid := incoming[i];
      NoDupFresh(incoming, i);
      PutAllStep(ms, done, jid, until);
      var prev := MuteOf(out, jid);
      if prev.None? {
        out := PutMute(out, jid, until);
        added := added + 1;
      } else if prev.value == until {
        PutMuteSame(out, jid, until);
      } else {
        out := PutMute(out, jid, until);
        updated := updated + 1;
      }
      assert incoming[..i + 1] == done + [jid];
      done := done + [jid];
      i := i + 1;
    }
    assert incoming[..|incoming|] == incoming;
  }

  /** One turn of `PutAll`'s loop, over the users done so far. */
  lemma PutAllStep(ms: seq<MuteEntry>, done: seq<string>, jid: string, until: Option<int>)
    requires jid !in done
    ensures var out := AddAll(ms, done, until);
      && MuteOf(out, jid) == MuteOf(ms, jid)
      && AddAll(ms, done + [jid], until) == PutMute(out, jid, until)
    ensures |Minus(done + [jid], MuteJids(ms))| == |Minus(done, MuteJids(ms))| + (if MuteOf(ms, jid).None? then 1 else 0)
    ensures |Changed(ms, done + [jid], until)|
            == |Changed(ms, done, until)| + (if MuteOf(ms, jid).Some? && MuteOf(ms, jid).value != until then 1 else 0)
  {
    assert (done + [jid])[..|done|] == done;
    AddAllLookup(ms, done, until, jid);
    MinusAppendLeft(done, [jid], MuteJids(ms));
    MinusSingle(jid, MuteJids(ms));
    MuteOfPresent(ms, jid);
  }

  /** The loop of `removeMutes`: each incoming user with a mute loses it. */
  method DeleteMutes(ms: seq<MuteEntry>, incoming: seq<string>) returns (out: seq<MuteEntry>, removed: nat)
    requires NoDup(MuteJids(ms))
    ensures out == RemoveAll(ms, incoming)
    ensures removed == |ms| - |out|
  {
    out := ms;
    removed := 0;
    var i := 0;
    ghost var seen: seq<string> := [];
    while i < |incoming|
      invariant 0 <= i <= |incoming| && seen == incoming[..i]
      invariant out == RemoveAll(ms, seen)
      invariant NoDup(MuteJids(out)) && removed == |ms| - |out|
    {
      var jid := incoming[i];
      DeleteMutesStep(out, jid);
      if MuteOf(out, jid).Some? {
        out := DeleteMute(out, jid);
        removed := removed + 1;
      }
      assert incoming[..i + 1] == seen + [jid] && (seen + [jid])[..|seen|] == seen;
      seen := seen + [jid];
      i := i + 1;
    }
    assert incoming[..|incoming|] == incoming;
  }

  /** One turn of `DeleteMutes`'s loop: a present user is deleted, shortening the list by one. */
  lemma DeleteMutesStep(out: seq<MuteEntry>, jid: string)
    requires NoDup(MuteJids(out))
    ensures NoDup(MuteJids(DeleteMute(out, jid)))
    ensures MuteOf(out, jid).Some? ==> |DeleteMute(out, jid)| == |out| - 1
    ensures MuteOf(out, jid).None? ==> DeleteMute(out, jid) == out
  {
    DeleteMuteSpec(out, jid, jid);
    MuteOfPresent(out, jid);
    MinusOneLength(MuteJids(out), jid);
    if MuteOf(out, jid).None? {
      DeleteAbsent(out, jid);
    }
  }

  /** What `getMute` reports for a stored mute, checked against the clock reading `later`. */
  function MuteStatusOf(mute: Option<Option<int>>, later: int): (r: MuteStatus)
    ensures r.muted <==> mute.Some? && !Ended(mute, later)
    ensures r.muted ==> r.until == mute.value
    ensures !r.muted ==> r.until.None?
  {
    match mute
    case None => MuteStatus(false, None)
    case Some(None) => MuteStatus(true, None)
    case Some(Some(n)) => if n <= later then MuteStatus(false, None) else MuteStatus(true, Some(n))
  }

  /** A timed mute that has ended by `later`. */
  predicate Ended(mute: Option<Option<int>>, later: int) {
    mute.Some? && mute.value.Some? && mute.value.value <= later
  }

  /** Looking up in two mute maps one after the other. */
  lemma {:induction false} MuteOfAppend(a: seq<MuteEntry>, b: seq<MuteEntry>, j: string)
    ensures MuteOf(a + b, j) == if MuteOf(a, j).Some? then MuteOf(a, j) else MuteOf(b, j)
    decreases |a|
  {
    if a == [] {
      assert a + b == b;
    } else {
      assert (a + b)[0] == a[0] && (a + b)[1..] == a[1..] + b;
      MuteOfAppend(a[1..], b, j);
    }
  }

  /** In a map of distinct users, dropping the ended mutes loses exactly the ended mute of a user. */
  lemma {:induction false} MuteOfRunning(ms: seq<MuteEntry>, t: int, j: string)
    requires NoDup(MuteJids(ms))
    ensures MuteOf(Running(ms, t), j)
      == if MuteOf(ms, j).Some? && Alive(MuteEntry(j, MuteOf(ms, j).value), t) then MuteOf(ms, j) else None
    decreases |ms|
  {
    if ms != [] {
      var init := ms[..|ms| - 1];
      var m := ms[|ms| - 1];
      assert init + [m] == ms;
      MuteJidsAppend(init, [m]);
      assert MuteJids([m]) == [m.jid];
      assert NoDup(MuteJids(init)) by {
        assert forall k :: 0 <= k < |init| ==> MuteJids(init)[k] == MuteJids(ms)[k];
      }
      MuteOfRunning(init, t, j);
      MuteOfAppend(init, [m], j);
      var tail := if Alive(m, t) then [m] else [];
      MuteOfAppend(Running(init, t), tail, j);
      if m.jid == j {
        forall k | 0 <= k < |init| ensures MuteJids(init)[k] != j {
          assert MuteJids(ms)[k] == MuteJids(init)[k];
          assert MuteJids(ms)[|ms| - 1] == j;
        }
        MuteOfPresent(init, j);
      }
    }
  }

  /** A user just muted until after `t` (or without end) is reported muted at `t`, until that instant. */
  lemma MutedAfterAdd(ms: seq<MuteEntry>, userJids: seq<string>, until: Option<int>, u: string, t: int)
    requires ValidMutes(ms) && u in userJids && NormalizeUserJid(u).Some?
    requires until.None? || until.value > t
    ensures var after := Running(AddAll(ms, Incoming(userJids), until), t);
      MuteStatusOf(MuteOf(after, NormalizeUserJid(u).value), t) == MuteStatus(true, until)
  {
    var x := NormalizeUserJid(u).value;
    var i :| 0 <= i < |userJids| && userJids[i] == u;
    IncomingMembers(userJids, x);
    AddAllValid(ms, Incoming(userJids), until);
    AddAllLookup(ms, Incoming(userJids), until, x);
    MuteOfRunning(AddAll(ms, Incoming(userJids), until), t, x);
  }

  /** A user whose mute was just removed is reported not muted at any time. */
  lemma UnmutedAfterRemove(ms: seq<MuteEntry>, userJids: seq<string>, u: string, t: int)
    requires ValidMutes(ms) && u in userJids && NormalizeUserJid(u).Some?
    ensures var after := Running(RemoveAll(ms, Incoming(userJids)), t);
      MuteStatusOf(MuteOf(after, NormalizeUserJid(u).value), t) == MuteStatus(false, None)
  {
    var x := NormalizeUserJid(u).value;
    var i :| 0 <= i < |userJids| && userJids[i] == u;
    IncomingMembers(userJids, x);
    RemoveAllValid(ms, Incoming(userJids));
    RemoveAllLookup(ms, Incoming(userJids), x);
    MuteOfRunning(RemoveAll(ms, Incoming(userJids)), t, x);
  }

  // ----- moderation switches --------------------------------------------------

  /** The six switches `setModerationFlag` accepts. */
  datatype FlagKey = AntiLink | FilterEnabled | AntiImage | AntiSticker | ExemptAllowlisted | ExemptAdmins

  /** The property name of a switch. */
  function FlagName(k: FlagKey): string {
    match k
    case AntiLink => "antiLink"
    case FilterEnabled => "filterEnabled"
    case AntiImage => "antiImage"
    case AntiSticker => "antiSticker"
    case ExemptAllowlisted => "exemptAllowlisted"
    case ExemptAdmins => "exemptAdmins"
  }

  /** `known.has(key)`: the switch a property name stands for, if it is one of the six. */
  function FlagOf(key: string): Option<FlagKey> {
    if key == "antiLink" then Some(AntiLink)
    else if key == "filterEnabled" then Some(FilterEnabled)
    else if key == "antiImage" then Some(AntiImage)
    else if key == "antiSticker" then Some(AntiSticker)
    else if key == "exemptAllowlisted" then Some(ExemptAllowlisted)
    else if key == "exemptAdmins" then Some(ExemptAdmins)
    else None
  }

  /** Switches and their names correspond one to one. */
  lemma FlagNames(k: FlagKey, key: string)
    ensures FlagOf(FlagName(k)) == Some(k)
    ensures FlagOf(key).Some? ==> FlagName(FlagOf(key).value) == key
  {
    match k
    case AntiLink =>
    case FilterEnabled =>
    case AntiImage =>
    case AntiSticker =>
    case ExemptAllowlisted =>
    case ExemptAdmins =>
  }

  /** `Boolean(m[key])` for a known switch. */
  function FlagValue(m: Moderation, k: FlagKey): bool {
    match k
    case AntiLink => m.antiLink
    case FilterEnabled => m.filterEnabled
    case AntiImage => m.antiImage
    case AntiSticker => m.antiSticker
    case ExemptAllowlisted => m.exemptAllowlisted
    case ExemptAdmins => m.exemptAdmins
  }

  /** `m[key] = value`: the switch gets the value and the other switches stay as they were. */
  function SetFlag(m: Moderation, k: FlagKey, value: bool): (r: Moderation)
    ensures FlagValue(r, k) == value
    ensures forall other :: other != k ==> FlagValue(r, other) == FlagValue(m, other)
  {
    match k
    case AntiLink => m.(antiLink := value)
    case FilterEnabled => m.(filterEnabled := value)
    case AntiImage => m.(antiImage := value)
    case AntiSticker => m.(antiSticker := value)
    case ExemptAllowlisted => m.(exemptAllowlisted := value)
    case ExemptAdmins => m.(exemptAdmins := value)
  }

  /** The six switches determine the setting: two settings that agree on every switch are equal. */
  lemma FlagsDetermine(m: Moderation, n: Moderation)
    requires forall k :: FlagValue(m, k) == FlagValue(n, k)
    ensures m == n
  {
    assert FlagValue(m, AntiLink) == FlagValue(n, AntiLink);
    assert FlagValue(m, FilterEnabled) == FlagValue(n, FilterEnabled);
    assert FlagValue(m, AntiImage) == FlagValue(n, AntiImage);
    assert FlagValue(m, AntiSticker) == FlagValue(n, AntiSticker);
    assert FlagValue(m, ExemptAllowlisted) == FlagValue(n, ExemptAllowlisted);
    assert FlagValue(m, ExemptAdmins) == FlagValue(n, ExemptAdmins);
  }

  /** The document after a switch was set: the group's switch has the value; a non-group id changes nothing. */
  function WithSwitch(d: StoreData, gid: string, k: FlagKey, value: bool, now: int): StoreData {
    if IsGroupJid(gid) then
      var g := GroupAt(d, gid, now);
      PutGroup(d, gid, g.(moderation := SetFlag(g.moderation, k, value)))
    else d
  }

  // ----- banned phrases -------------------------------------------------------

  /** `before.filter((w) => String(w).toLowerCase() !== needle)`. */
  function Without(ws: seq<string>, needle: string): (r: seq<string>)
    ensures |r| <= |ws|
  {
    if ws == [] then []
    else (if Lower(ws[0]) != needle then [ws[0]] else []) + Without(ws[1..], needle)
  }

  /** Filtering takes the needle out of the lower-case forms. */
  lemma {:induction false} WithoutKeys(ws: seq<string>, needle: string)
    ensures Keys(Without(ws, needle)) == Minus(Keys(ws), [needle])
    decreases |ws|
  {
    if ws != [] {
      WithoutKeys(ws[1..], needle);
      var head := if Lower(ws[0]) != needle then [ws[0]] else [];
      assert Keys(ws) == Keys([ws[0]]) + Keys(ws[1..]) by {
        KeysAppend([ws[0]], ws[1..]);
        assert [ws[0]] + ws[1..] == ws;
      }
      KeysAppend(head, Without(ws[1..], needle));
      assert Keys(head) == Minus(Keys([ws[0]]), [needle]);
      MinusAppendLeft(Keys([ws[0]]), Keys(ws[1..]), [needle]);
    }
  }

  lemma KeysAppend(a: seq<string>, b: seq<string>)
    ensures Keys(a + b) == Keys(a) + Keys(b)
  {
    assert forall k :: 0 <= k < |a + b| ==> Keys(a + b)[k] == (Keys(a) + Keys(b))[k];
  }

  /** Filtering keeps exactly the phrases of another lower-case form. */
  lemma {:induction false} WithoutMembers(ws: seq<string>, needle: string, w: string)
    ensures w in Without(ws, needle) <==> w in ws && Lower(w) != needle
    decreases |ws|
  {
    if ws != [] {
      WithoutMembers(ws[1..], needle, w);
      assert w in ws <==> w == ws[0] || w in ws[1..];
    }
  }

  /** A needle that is not among the lower-case forms filters nothing out. */
  lemma {:induction false} WithoutAbsent(ws: seq<string>, needle: string)
    requires needle !in Keys(ws)
    ensures Without(ws, needle) == ws
    decreases |ws|
  {
    if ws != [] {
      assert Keys(ws)[0] == Lower(ws[0]);
      assert Keys(ws)[1..] == Keys(ws[1..]);
      WithoutAbsent(ws[1..], needle);
      assert [ws[0]] + ws[1..] == ws;
    }
  }

  /** Filtering a valid list keeps it valid and drops one phrase exactly when the needle is the form of one. */
  lemma WithoutSpec(ws: seq<string>, needle: string)
    requires ValidWords(ws)
    ensures ValidWords(Without(ws, needle))
    ensures forall w :: w in Without(ws, needle) <==> w in ws && Lower(w) != needle
    ensures |Without(ws, needle)| == if needle in Keys(ws) then |ws| - 1 else |ws|
    ensures needle !in Keys(ws) ==> Without(ws, needle) == ws
  {
    var r := Without(ws, needle);
    WithoutKeys(ws, needle);
    MinusOneLength(Keys(ws), needle);
    forall w ensures w in r <==> w in ws && Lower(w) != needle {
      WithoutMembers(ws, needle, w);
    }
    forall k | 0 <= k < |r| ensures IsPhrase(r[k]) {
      assert r[k] in ws;
      var i :| 0 <= i < |ws| && ws[i] == r[k];
    }
    if needle !in Keys(ws) {
      WithoutAbsent(ws, needle);
    }
  }

  /** A phrase whose lower-case form is new may be appended to a valid list. */
  lemma ValidWordsSnoc(ws: seq<string>, w: string)
    requires IsPhrase(w) && ValidWords(ws) && Lower(w) !in Keys(ws)
    ensures ValidWords(ws + [w])
  {
    KeysSnoc(ws, w);
    var r := ws + [w];
    assert forall k :: 0 <= k < |ws| ==> r[k] == ws[k];
  }

  // ----- the document ---------------------------------------------------------

  /**
   * What `addBannedWord` reports: one added and the new total when the normalised
   * phrase is new to the group ignoring case; nothing added otherwise.
   */
  function AddWordCount(d: StoreData, gid: string, phrase: string, now: int): Count {
    if !IsGroupJid(gid) then Count(0, 0)
    else
      var g := GroupAt(d, gid, now);
      var v := NormalizeBannedWord(phrase);
      if v.Some? && Lower(v.value) !in Keys(g.bannedWords) then Count(1, |g.bannedWords| + 1)
      else Count(0, |g.bannedWords|)
  }

  /** The document after `addBannedWord`: a new phrase appended to the group's list. */
  function AddWordData(d: StoreData, gid: string, phrase: string, now: int): StoreData {
    if !IsGroupJid(gid) then d
    else
      var g := GroupAt(d, gid, now);
      var v := NormalizeBannedWord(phrase);
      if v.Some? && Lower(v.value) !in Keys(g.bannedWords) then PutGroup(d, gid, g.(bannedWords := g.bannedWords + [v.value]))
      else Touched(d, gid, now)
  }

  /** What `removeBannedWord` reports: how many phrases with the phrase's lower-case form went, and how many are left. */
  function RemoveWordCount(d: StoreData, gid: string, phrase: string, now: int): Count {
    if !IsGroupJid(gid) then Count(0, 0)
    else
      var g := GroupAt(d, gid, now);
      var v := NormalizeBannedWord(phrase);
      if v.Some? then
        var after := Without(g.bannedWords, Lower(v.value));
        Count(|g.bannedWords| - |after|, |after|)
      else Count(0, |g.bannedWords|)
  }

  /** The document after `removeBannedWord`. */
  function RemoveWordData(d: StoreData, gid: string, phrase: string, now: int): StoreData {
    if !IsGroupJid(gid) then d
    else
      var g := GroupAt(d, gid, now);
      var v := NormalizeBannedWord(phrase);
      if v.Some? then PutGroup(d, gid, g.(bannedWords := Without(g.bannedWords, Lower(v.value))))
      else Touched(d, gid, now)
  }

  /** The document after `setWelcomeEnabled`: the switch set, the template normalised once more. */
  function WithWelcomeEnabled(d: StoreData, gid: string, enabled: bool, now: int): StoreData {
    if IsGroupJid(gid) then
      var g := GroupAt(d, gid, now);
      PutGroup(d, gid, g.(welcome := Welcome(enabled, NormalizeWelcomeTemplate(g.welcome.template))))
    else d
  }

  /** The document after `setWelcomeTemplate`: the normalised template stored, the switch kept. */
  function WithTemplate(d: StoreData, gid: string, template: string, now: int): StoreData {
    if IsGroupJid(gid) then
      var g := GroupAt(d, gid, now);
      PutGroup(d, gid, g.(welcome := Welcome(g.welcome.enabled, NormalizeWelcomeTemplate(template))))
    else d
  }

  /** The stored value of a group, if any. */
  function RawGroup(d: StoreData, gid: string): Option<Json> {
    if gid in d.groups then Some(d.groups[gid]) else None
  }

  /** The group as `ensureGroup` finds it at `now`. */
  function GroupAt(d: StoreData, gid: string, now: int): Group {
    NormalizeGroup(RawGroup(d, gid), now)
  }

  /** The document with a group's settings written in. */
  function PutGroup(d: StoreData, gid: string, g: Group): StoreData {
    d.(groups := d.groups[gid := GroupJson(g)])
  }

  /** The document once `ensureGroup` has run for `gid` at `now`: only group identifiers have settings. */
  function Touched(d: StoreData, gid: string, now: int): StoreData {
    if IsGroupJid(gid) then PutGroup(d, gid, GroupAt(d, gid, now)) else d
  }

  /**
   * Settings written for a group are found again by the next `ensureGroup` at any
   * `t`: the same bans, switches and phrases, the template normalised once more,
   * the mutes still running at `t`; the other groups are as they were.
   */
  lemma GroupAtPut(d: StoreData, gid: string, g: Group, t: int, other: string)
    requires ValidGroup(g)
    ensures GroupAt(PutGroup(d, gid, g), gid, t) == Group(
      g.bans, g.moderation, Welcome(g.welcome.enabled, NormalizeWelcomeTemplate(g.welcome.template)),
      g.bannedWords, Running(g.mutes, t))
    ensures other != gid ==> GroupAt(PutGroup(d, gid, g), other, t) == GroupAt(d, other, t)
  {
    var d2 := PutGroup(d, gid, g);
    assert RawGroup(d2, gid) == Some(GroupJson(g));
    GroupReadBack(g, t);
    if other != gid {
      assert RawGroup(d2, other) == RawGroup(d, other);
    }
  }

  /** Writing a group twice keeps only the second write. */
  lemma PutGroupTwice(d: StoreData, gid: string, g: Group, h: Group)
    ensures PutGroup(PutGroup(d, gid, g), gid, h) == PutGroup(d, gid, h)
  {
    assert PutGroup(PutGroup(d, gid, g), gid, h).groups == PutGroup(d, gid, h).groups;
  }

  /** `normalizeStoreData` of what was read: a missing or unreadable file gives the empty document. */
  function Loaded(file: LoadOutcome): (d: StoreData)
    ensures !file.Parsed? ==> d == StoreData(StoreVersion, map[], [])
  {
    NormalizeStoreData(if file.Parsed? then Some(file.doc) else None)
  }

  /** The store: the document in memory and what was last written to the store file. */
  class Store {
    var data: StoreData
    /** The document as last written by `flush`; `None` until the first write. */
    var saved: Option<StoreData>

    /** The allowlist holds distinct normalised users at the current version. */
    predicate Valid()
      reads this
    {
      data.version == StoreVersion && NoDup(data.allowlist) && AllCanonical(data.allowlist)
    }

    /** `createStore`: the normalised document read from the file, or the empty one. */
    constructor Load(file: LoadOutcome)
      ensures data == Loaded(file) && saved.None?
      ensures Valid()
    {
      data := Loaded(file);
      saved := None;
    }

    /** `flush`: the document is written to the store file. */
    method Flush()
      modifies this
      ensures data == old(data) && saved == Some(data)
    {
      saved := Some(data);
    }

    /** `ensureGroup(data, gid)`: the normalised group, written back into the document in memory. */
    method EnsureGroup(gid: string, now: int) returns (g: Option<Group>)
      modifies this
      ensures g == if IsGroupJid(gid) then Some(GroupAt(old(data), gid, now)) else None
      ensures data == Touched(old(data), gid, now) && saved == old(saved)
    {
      if !IsGroupJid(gid) {
        return None;
      }
      var raw := RawGroup(data, gid);
      var obj := if raw.Some? && IsObject(raw.value) then raw else None;
      var bans := JidList(Field(obj, "bans"));
      var moderation := EnsureModeration(Field(obj, "moderation"));
      var welcome := EnsureWelcome(Field(obj, "welcome"));
      var words := UniqBannedWords(Items(Field(obj, "bannedWords")));
      var mutes := CollectMutes(Field(obj, "mutes"), now);
      var group := Group(bans, moderation, welcome, words, mutes);
      data := PutGroup(data, gid, group);
      return Some(group);
    }

    // ----- allowlist ----------------------------------------------------------

    /** `listAllowlist`. */
    function ListAllowlist(): (r: seq<string>)
      reads this
      requires Valid()
      ensures NoDup(r) && AllCanonical(r)
    {
      data.allowlist
    }

    /** `isAllowlisted`. */
    function IsAllowlisted(userJid: string): bool
      reads this
    {
      Listed(data.allowlist, userJid)
    }

    /** `addAllowlist`: appends the new users and writes the file only when there was one. */
    method AddAllowlist(userJids: seq<string>) returns (r: Count)
      requires Valid()
      modifies this
      ensures Valid()
      ensures var after := Added(old(data.allowlist), userJids);
        && data == old(data).(allowlist := after)
        && r == Count(|after| - |old(data.allowlist)|, |after|)
        && saved == if |after| > |old(data.allowlist)| then Some(data) else old(saved)
    {
      AddedSpec(data.allowlist, userJids, "");
      var members, added := AppendNew(data.allowlist, Incoming(userJids));
      if added == 0 {
        assert members == data.allowlist;
        return Count(0, |members|);
      }
      data := data.(allowlist := members);
      Flush();
      return Count(added, |data.allowlist|);
    }

    /** `removeAllowlist`: deletes the users named and writes the file only when one was there. */
    method RemoveAllowlist(userJids: seq<string>) returns (r: Count)
      requires Valid()
      modifies this
      ensures Valid()
      ensures var after := Removed(old(data.allowlist), userJids);
        && data == old(data).(allowlist := after)
        && r == Count(|old(data.allowlist)| - |after|, |after|)
        && saved == if |after| < |old(data.allowlist)| then Some(data) else old(saved)
    {
      RemovedSpec(data.allowlist, userJids, "");
      var members, removed := DeleteAll(data.allowlist, Incoming(userJids));
      if removed == 0 {
        MinusKeepsAll(data.allowlist, Incoming(userJids));
        return Count(0, |members|);
      }
      data := data.(allowlist := members);
      Flush();
      return Count(removed, |data.allowlist|);
    }

    // ----- bans ---------------------------------------------------------------

    /** `listBans`. */
    method ListBans(gid: string, now: int) returns (r: seq<string>)
      modifies this
      ensures r == if IsGroupJid(gid) then GroupAt(old(data), gid, now).bans else []
      ensures NoDup(r) && AllCanonical(r)
      ensures data == Touched(old(data), gid, now) && saved == old(saved)
    {
      var g := EnsureGroup(gid, now);
      if g.None? {
        return [];
      }
      return g.value.bans;
    }

    /** `isBanned`. */
    method IsBanned(gid: string, userJid: string, now: int) returns (b: bool)
      modifies this
      ensures b <==> IsGroupJid(gid) && Listed(GroupAt(old(data), gid, now).bans, userJid)
      ensures data == Touched(old(data), gid, now) && saved == old(saved)
    {
      var g := EnsureGroup(gid, now);
      var u := NormalizeUserJid(userJid);
      if g.None? || u.None? {
        return false;
      }
      return u.value in g.value.bans;
    }

    /** `addBans`: appends the new users and always writes the file. */
    method AddBans(gid: string, userJids: seq<string>, now: int) returns (r: Count)
      modifies this
      ensures !IsGroupJid(gid) ==> data == old(data) && saved == old(saved) && r == Count(0, 0)
      ensures IsGroupJid(gid) ==>
        var g := GroupAt(old(data), gid, now);
        var after := Added(g.bans, userJids);
        && data == PutGroup(old(data), gid, g.(bans := after))
        && saved == Some(data)
        && r == Count(|after| - |g.bans|, |after|)
    {
      var g := EnsureGroup(gid, now);
      if g.None? {
        return Count(0, 0);
      }
      var bans, added := AppendNew(g.value.bans, Incoming(userJids));
      PutGroupTwice(old(data), gid, g.value, g.value.(bans := bans));
      data := PutGroup(data, gid, g.value.(bans := bans));
      Flush();
      return Count(added, |bans|);
    }

    /** `removeBans`: deletes the users named and always writes the file. */
    method RemoveBans(gid: string, userJids: seq<string>, now: int) returns (r: Count)
      modifies this
      ensures !IsGroupJid(gid) ==> data == old(data) && saved == old(saved) && r == Count(0, 0)
      ensures IsGroupJid(gid) ==>
        var g := GroupAt(old(data), gid, now);
        var after := Removed(g.bans, userJids);
        && data == PutGroup(old(data), gid, g.(bans := after))
        && saved == Some(data)
        && r == Count(|g.bans| - |after|, |after|)
    {
      var g := EnsureGroup(gid, now);
      if g.None? {
        return Count(0, 0);
      }
      var bans, removed := DeleteAll(g.value.bans, Incoming(userJids));
      PutGroupTwice(old(data), gid, g.value, g.value.(bans := bans));
      data := PutGroup(data, gid, g.value.(bans := bans));
      Flush();
      return Count(removed, |bans|);
    }

    // ----- mutes --------------------------------------------------------------

    /**
     * `getMute`: the user's mute as of the clock reading `later`; a timed mute that
     * has ended is deleted from the document in memory, without writing the file.
     */
    method GetMute(gid: string, userJid: string, now: int, later: int) returns (r: MuteStatus)
      modifies this
      ensures saved == old(saved)
      ensures !IsGroupJid(gid) || NormalizeUserJid(userJid).None? ==>
        r == MuteStatus(false, None) && data == Touched(old(data), gid, now)
      ensures IsGroupJid(gid) && NormalizeUserJid(userJid).Some? ==>
        var u := NormalizeUserJid(userJid).value;
        var g := GroupAt(old(data), gid, now);
        r == MuteStatusOf(MuteOf(g.mutes, u), later)
      ensures IsGroupJid(gid) && NormalizeUserJid(userJid).Some? ==>
        var u := NormalizeUserJid(userJid).value;
        var g := GroupAt(old(data), gid, now);
        data == PutGroup(old(data), gid, if Ended(MuteOf(g.mutes, u), later) then g.(mutes := DeleteMute(g.mutes, u)) else g)
    {
      ghost var d0 := data;
      var g := EnsureGroup(gid, now);
      var u := NormalizeUserJid(userJid);
      if g.None? || u.None? {
        return MuteStatus(false, None);
      }
      assert data == PutGroup(d0, gid, g.value);
      r := ExpireMute(gid, g.value, u.value, later);
      ghost var entry := MuteOf(g.value.mutes, u.value);
      PutGroupTwice(d0, gid, g.value, if Ended(entry, later) then g.value.(mutes := DeleteMute(g.value.mutes, u.value)) else g.value);
    }

    /** The part of `getMute` after `ensureGroup`: an ended timed mute is deleted. */
    method ExpireMute(gid: string, g: Group, u: string, later: int) returns (r: MuteStatus)
      modifies this
      requires gid in data.groups && data.groups[gid] == GroupJson(g)
      ensures saved == old(saved) && r == MuteStatusOf(MuteOf(g.mutes, u), later)
      ensures data == PutGroup(old(data), gid, if Ended(MuteOf(g.mutes, u), later) then g.(mutes := DeleteMute(g.mutes, u)) else g)
    {
      var entry := MuteOf(g.mutes, u);
      if Ended(entry, later) {
        data := PutGroup(data, gid, g.(mutes := DeleteMute(g.mutes, u)));
      } else {
        assert data.groups == PutGroup(data, gid, g).groups;
      }
      return MuteStatusOf(entry, later);
    }

    /**
     * `addMutes`: nothing is stored for a mute that has already ended at `later`;
     * otherwise every user named gets the mute, and the file is written when one
     * was added or changed.
     */
    method AddMutes(gid: string, userJids: seq<string>, until: Option<int>, now: int, later: int)
      returns (r: MuteCount)
      modifies this
      ensures !IsGroupJid(gid) ==> data == old(data) && saved == old(saved) && r == MuteCount(0, 0, 0)
      ensures IsGroupJid(gid) && until.Some? && until.value <= later ==>
        && data == Touched(old(data), gid, now) && saved == old(saved)
        && r == MuteCount(0, 0, |GroupAt(old(data), gid, now).mutes|)
      ensures IsGroupJid(gid) && (until.None? || until.value > later) ==>
        var g := GroupAt(old(data), gid, now);
        var inc := Incoming(userJids);
        var after := AddAll(g.mutes, inc, until);
        && data == PutGroup(old(data), gid, g.(mutes := after))
        && r == MuteCount(|Minus(inc, MuteJids(g.mutes))|, |Changed(g.mutes, inc, until)|, |after|)
        && saved == if r.added > 0 || r.updated > 0 then Some(data) else old(saved)
    {
      ghost var d0 := data;
      var g := EnsureGroup(gid, now);
      if g.None? {
        return MuteCount(0, 0, 0);
      }
      if until.Some? && until.value <= later {
        return MuteCount(0, 0, |g.value.mutes|);
      }
      assert data == PutGroup(d0, gid, g.value);
      var out, added, updated := PutAll(g.value.mutes, Incoming(userJids), until);
      var h := g.value.(mutes := out);
      PutGroupTwice(d0, gid, g.value, h);
      data := PutGroup(data, gid, h);
      assert data == PutGroup(d0, gid, h);
      if added > 0 || updated > 0 {
        Flush();
      }
      return MuteCount(added, updated, |out|);
    }

    /** `removeMutes`: the users named lose their mute; the file is written when one had one. */
    method RemoveMutes(gid: string, userJids: seq<string>, now: int) returns (r: Count)
      modifies this
      ensures !IsGroupJid(gid) ==> data == old(data) && saved == old(saved) && r == Count(0, 0)
      ensures IsGroupJid(gid) ==>
        var g := GroupAt(old(data), gid, now);
        var after := RemoveAll(g.mutes, Incoming(userJids));
        && data == PutGroup(old(data), gid, g.(mutes := after))
        && r == Count(|g.mutes| - |after|, |after|)
        && saved == if r.changed > 0 then Some(data) else old(saved)
    {
      var g := EnsureGroup(gid, now);
      if g.None? {
        return Count(0, 0);
      }
      var out, removed := DeleteMutes(g.value.mutes, Incoming(userJids));
      PutGroupTwice(old(data), gid, g.value, g.value.(mutes := out));
      data := PutGroup(data, gid, g.value.(mutes := out));
      if removed > 0 {
        Flush();
      }
      return Count(removed, |out|);
    }

    // ----- moderation ---------------------------------------------------------

    /** `getModeration`: the group's switches and phrases. */
    method GetModeration(gid: string, now: int) returns (r: Option<ModerationView>)
      modifies this
      ensures r == ModerationAt(old(data), gid, now)
      ensures data == Touched(old(data), gid, now) && saved == old(saved)
    {
      var g := EnsureGroup(gid, now);
      if g.None? {
        return None;
      }
      ModerationRoundTrip(g.value.moderation);
      var m := EnsureModeration(Some(ModerationJson(g.value.moderation)));
      return Some(ModerationView(m, g.value.bannedWords));
    }

    /** `setModerationFlag`: sets one of the six switches and writes the file; any other name changes nothing. */
    method SetModerationFlag(gid: string, key: string, value: bool, now: int) returns (r: Outcome)
      modifies this
      ensures r.ok <==> IsGroupJid(gid) && FlagOf(key).Some?
      ensures r.value == (r.ok && value)
      ensures !IsGroupJid(gid) ==> data == old(data) && saved == old(saved)
      ensures IsGroupJid(gid) && FlagOf(key).None? ==> data == Touched(old(data), gid, now) && saved == old(saved)
      ensures r.ok ==>
        var g := GroupAt(old(data), gid, now);
        data == PutGroup(old(data), gid, g.(moderation := SetFlag(g.moderation, FlagOf(key).value, value)))
        && saved == Some(data)
    {
      var g := EnsureGroup(gid, now);
      if g.None? {
        return Outcome(false, false);
      }
      ModerationRoundTrip(g.value.moderation);
      var m := EnsureModeration(Some(ModerationJson(g.value.moderation)));
      var k := FlagOf(key);
      if k.None? {
        return Outcome(false, false);
      }
      m := SetFlag(m, k.value, value);
      PutGroupTwice(old(data), gid, g.value, g.value.(moderation := m));
      data := PutGroup(data, gid, g.value.(moderation := m));
      Flush();
      return Outcome(true, FlagValue(m, k.value));
    }

    /** `setAntiLink`. */
    method SetAntiLink(gid: string, enabled: bool, now: int) returns (r: Outcome)
      modifies this
      ensures r == Outcome(IsGroupJid(gid), IsGroupJid(gid) && enabled)
      ensures data == WithSwitch(old(data), gid, AntiLink, enabled, now)
      ensures saved == if IsGroupJid(gid) then Some(data) else old(saved)
    {
      FlagNames(AntiLink, "");
      r := SetModerationFlag(gid, FlagName(AntiLink), enabled, now);
    }

    /** `setFilterEnabled`. */
    method SetFilterEnabled(gid: string, enabled: bool, now: int) returns (r: Outcome)
      modifies this
      ensures r == Outcome(IsGroupJid(gid), IsGroupJid(gid) && enabled)
      ensures data == WithSwitch(old(data), gid, FilterEnabled, enabled, now)
      ensures saved == if IsGroupJid(gid) then Some(data) else old(saved)
    {
      FlagNames(FilterEnabled, "");
      r := SetModerationFlag(gid, FlagName(FilterEnabled), enabled, now);
    }

    /** `setAntiImage`. */
    method SetAntiImage(gid: string, enabled: bool, now: int) returns (r: Outcome)
      modifies this
      ensures r == Outcome(IsGroupJid(gid), IsGroupJid(gid) && enabled)
      ensures data == WithSwitch(old(data), gid, AntiImage, enabled, now)
      ensures saved == if IsGroupJid(gid) then Some(data) else old(saved)
    {
      FlagNames(AntiImage, "");
      r := SetModerationFlag(gid, FlagName(AntiImage), enabled, now);
    }

    /** `setAntiSticker`. */
    method SetAntiSticker(gid: string, enabled: bool, now: int) returns (r: Outcome)
      modifies this
      ensures r == Outcome(IsGroupJid(gid), IsGroupJid(gid) && enabled)
      ensures data == WithSwitch(old(data), gid, AntiSticker, enabled, now)
      ensures saved == if IsGroupJid(gid) then Some(data) else old(saved)
    {
      FlagNames(AntiSticker, "");
      r := SetModerationFlag(gid, FlagName(AntiSticker), enabled, now);
    }

    /** `setExemptAllowlisted`. */
    method SetExemptAllowlisted(gid: string, enabled: bool, now: int) returns (r: Outcome)
      modifies this
      ensures r == Outcome(IsGroupJid(gid), IsGroupJid(gid) && enabled)
      ensures data == WithSwitch(old(data), gid, ExemptAllowlisted, enabled, now)
      ensures saved == if IsGroupJid(gid) then Some(data) else old(saved)
    {
      FlagNames(ExemptAllowlisted, "");
      r := SetModerationFlag(gid, FlagName(ExemptAllowlisted), enabled, now);
    }

    /** `setExemptAdmins`. */
    method SetExemptAdmins(gid: string, enabled: bool, now: int) returns (r: Outcome)
      modifies this
      ensures r == Outcome(IsGroupJid(gid), IsGroupJid(gid) && enabled)
      ensures data == WithSwitch(old(data), gid, ExemptAdmins, enabled, now)
      ensures saved == if IsGroupJid(gid) then Some(data) else old(saved)
    {
      FlagNames(ExemptAdmins, "");
      r := SetModerationFlag(gid, FlagName(ExemptAdmins), enabled, now);
    }

    // ----- banned phrases ------------------------------------------------------

    /** `listBannedWords`. */
    method ListBannedWords(gid: string, now: int) returns (r: seq<string>)
      modifies this
      ensures r == if IsGroupJid(gid) then GroupAt(old(data), gid, now).bannedWords else []
      ensures ValidWords(r)
      ensures data == Touched(old(data), gid, now) && saved == old(saved)
    {
      var g := EnsureGroup(gid, now);
      if g.None? {
        return [];
      }
      return g.value.bannedWords;
    }

    /**
     * `addBannedWord`: a normalised phrase whose lower-case form is new is appended
     * and the file is written; a blank phrase or one already listed changes nothing.
     */
    method AddBannedWord(gid: string, phrase: string, now: int) returns (r: Count)
      modifies this
      ensures r == AddWordCount(old(data), gid, phrase, now) && data == AddWordData(old(data), gid, phrase, now)
      ensures saved == if r.changed > 0 then Some(data) else old(saved)
    {
      var g := EnsureGroup(gid, now);
      if g.None? {
        return Count(0, 0);
      }
      var words := g.value.bannedWords;
      var v := NormalizeBannedWord(phrase);
      if v.None? {
        return Count(0, |words|);
      }
      var needle := Lower(v.value);
      var existing := Elems(Keys(words));
      if needle in existing {
        return Count(0, |words|);
      }
      ValidWordsSnoc(words, v.value);
      UniqWordsOfValid(words + [v.value]);
      var next := UniqBannedWords(Strings(words + [v.value]));
      PutGroupTwice(old(data), gid, g.value, g.value.(bannedWords := next));
      data := PutGroup(data, gid, g.value.(bannedWords := next));
      Flush();
      return Count(1, |next|);
    }

    /**
     * `removeBannedWord`: drops the phrases with the same lower-case form as the
     * normalised phrase and writes the file; a blank phrase changes nothing.
     */
    method RemoveBannedWord(gid: string, phrase: string, now: int) returns (r: Count)
      modifies this
      ensures r == RemoveWordCount(old(data), gid, phrase, now) && data == RemoveWordData(old(data), gid, phrase, now)
      ensures saved == if IsGroupJid(gid) && NormalizeBannedWord(phrase).Some? then Some(data) else old(saved)
    {
      var g := EnsureGroup(gid, now);
      if g.None? {
        return Count(0, 0);
      }
      var words := g.value.bannedWords;
      var v := NormalizeBannedWord(phrase);
      if v.None? {
        return Count(0, |words|);
      }
      var needle := Lower(v.value);
      var after := Without(words, needle);
      WithoutSpec(words, needle);
      var removed := |words| - |after|;
      UniqWordsOfValid(after);
      var next := UniqBannedWords(Strings(after));
      PutGroupTwice(old(data), gid, g.value, g.value.(bannedWords := next));
      data := PutGroup(data, gid, g.value.(bannedWords := next));
      Flush();
      return Count(removed, |next|);
    }

    // ----- welcome -------------------------------------------------------------

    /** `getWelcome`: the welcome settings, with the template normalised once more in memory. */
    method GetWelcome(gid: string, now: int) returns (r: Option<Welcome>)
      modifies this
      ensures r == WelcomeAt(old(data), gid, now)
      ensures data == AfterWelcomeRead(old(data), gid, now) && saved == old(saved)
    {
      var g := EnsureGroup(gid, now);
      if g.None? {
        return None;
      }
      WelcomeRoundTrip(g.value.welcome);
      var w := EnsureWelcome(Some(WelcomeJson(g.value.welcome)));
      PutGroupTwice(old(data), gid, g.value, g.value.(welcome := w));
      data := PutGroup(data, gid, g.value.(welcome := w));
      return Some(Welcome(w.enabled, if w.template != "" then w.template else DefaultWelcomeTemplate));
    }

    /** `setWelcomeEnabled`: switches the welcome message and writes the file. */
    method SetWelcomeEnabled(gid: string, enabled: bool, now: int) returns (r: Outcome)
      modifies this
      ensures r == Outcome(IsGroupJid(gid), IsGroupJid(gid) && enabled)
      ensures data == WithWelcomeEnabled(old(data), gid, enabled, now)
      ensures saved == if IsGroupJid(gid) then Some(data) else old(saved)
    {
      var g := EnsureGroup(gid, now);
      if g.None? {
        return Outcome(false, false);
      }
      WelcomeRoundTrip(g.value.welcome);
      var w := EnsureWelcome(Some(WelcomeJson(g.value.welcome)));
      w := w.(enabled := enabled);
      PutGroupTwice(old(data), gid, g.value, g.value.(welcome := w));
      data := PutGroup(data, gid, g.value.(welcome := w));
      Flush();
      return Outcome(true, w.enabled);
    }

    /** `setWelcomeTemplate`: stores the normalised template and writes the file. */
    method SetWelcomeTemplate(gid: string, template: string, now: int) returns (r: TemplateOutcome)
      modifies this
      ensures r == if IsGroupJid(gid) then TemplateOutcome(true, NormalizeWelcomeTemplate(template))
                   else TemplateOutcome(false, DefaultWelcomeTemplate)
      ensures data == WithTemplate(old(data), gid, template, now)
      ensures saved == if IsGroupJid(gid) then Some(data) else old(saved)
    {
      var g := EnsureGroup(gid, now);
      if g.None? {
        return TemplateOutcome(false, DefaultWelcomeTemplate);
      }
      WelcomeRoundTrip(g.value.welcome);
      var w := EnsureWelcome(Some(WelcomeJson(g.value.welcome)));
      var next := NormalizeWelcomeTemplate(template);
      w := w.(template := next);
      PutGroupTwice(old(data), gid, g.value, g.value.(welcome := w));
      data := PutGroup(data, gid, g.value.(welcome := w));
      Flush();
      return TemplateOutcome(true, next);
    }
  }

  /** Taking out elements that are not there leaves the list as it was. */
  lemma {:induction false} MinusKeepsAll(xs: seq<string>, ys: seq<string>)
    requires |Minus(xs, ys)| == |xs|
    ensures Minus(xs, ys) == xs
    decreases |xs|
  {
    if xs != [] {
      assert |Minus(xs[1..], ys)| <= |xs[1..]|;
      assert xs[0] !in ys;
      MinusKeepsAll(xs[1..], ys);
      assert [xs[0]] + xs[1..] == xs;
    }
  }
}
