/**
 * The admin commands: `kick`, `promote` and `demote` update the group's
 * participants one target at a time and report how many updates went through;
 * `ban` removes the targets and keeps the removed ones on the group's ban list;
 * `unban` takes users off that list; `mute` and `unmute` maintain the group's
 * mute list. Every handler first sanitises the targets the router resolved and,
 * when none is left, answers with an example of the command. Each handler ends in
 * exactly one reply.
 */
module AdminCommands {
  import opened Wrappers
  import opened Text
  import opened Seqs
  import opened Jid
  import opened Normalize
  import opened Storage
  import opened Actions
  import opened Parse
  import opened GroupAdmin

  // ----- participant updates -----------------------------------------------------

  /** The targets whose update the connection accepts, in order. */
  function Accepted(targets: seq<string>, fails: set<string>): (r: seq<string>)
    ensures |r| <= |targets|
    decreases |targets|
  {
    if targets == [] then []
    else
      var last := targets[|targets| - 1];
      Accepted(targets[..|targets| - 1], fails) + (if last in fails then [] else [last])
  }

  /** The targets whose update the connection refuses, in order. */
  function Refused(targets: seq<string>, fails: set<string>): (r: seq<string>)
    ensures |r| <= |targets|
    decreases |targets|
  {
    if targets == [] then []
    else
      var last := targets[|targets| - 1];
      Refused(targets[..|targets| - 1], fails) + (if last in fails then [last] else [])
  }

  /** Every target is either accepted or refused. */
  lemma {:induction false} SplitSizes(targets: seq<string>, fails: set<string>)
    ensures |Accepted(targets, fails)| + |Refused(targets, fails)| == |targets|
    decreases |targets|
  {
    if targets != [] {
      SplitSizes(targets[..|targets| - 1], fails);
    }
  }

  /** Every target ends up in exactly one of the two lists, as often as it was given. */
  lemma {:induction false} SplitByOutcome(targets: seq<string>, fails: set<string>)
    ensures multiset(Accepted(targets, fails)) + multiset(Refused(targets, fails)) == multiset(targets)
    decreases |targets|
  {
    if targets != [] {
      var n := |targets| - 1;
      var init, last := targets[..n], targets[n];
      SplitByOutcome(init, fails);
      assert targets == init + [last];
      assert multiset(targets) == multiset(init) + multiset{last};
      if last in fails {
        assert Refused(targets, fails) == Refused(init, fails) + [last];
        assert Accepted(targets, fails) == Accepted(init, fails);
      } else {
        assert Accepted(targets, fails) == Accepted(init, fails) + [last];
        assert Refused(targets, fails) == Refused(init, fails);
      }
    }
  }

  /** A target is accepted exactly when it is given and the connection does not refuse it. */
  lemma {:induction false} AcceptedMembers(targets: seq<string>, fails: set<string>, x: string)
    ensures x in Accepted(targets, fails) <==> x in targets && x !in fails
    ensures x in Refused(targets, fails) <==> x in targets && x in fails
    decreases |targets|
  {
    if targets != [] {
      var n := |targets| - 1;
      var init, last := targets[..n], targets[n];
      AcceptedMembers(init, fails, x);
      assert targets == init + [last];
      assert x in targets <==> x in init || x == last;
    }
  }

  /** A list of distinct normalised targets splits into two such lists. */
  lemma SplitCanonical(targets: seq<string>, fails: set<string>)
    requires AllCanonical(targets)
    ensures AllCanonical(Accepted(targets, fails)) && AllCanonical(Refused(targets, fails))
  {
    var a, r := Accepted(targets, fails), Refused(targets, fails);
    forall k | 0 <= k < |a| ensures Canonical(a[k]) {
      AcceptedMembers(targets, fails, a[k]);
      var i :| 0 <= i < |targets| && targets[i] == a[k];
    }
    forall k | 0 <= k < |r| ensures Canonical(r[k]) {
      AcceptedMembers(targets, fails, r[k]);
      var i :| 0 <= i < |targets| && targets[i] == r[k];
    }
  }

  /** One participant update per target, in the order of the targets. */
  function Updates(group: string, targets: seq<string>, op: UpdateOp): (r: seq<Action>)
    ensures |r| == |targets|
    ensures forall i :: 0 <= i < |targets| ==> r[i] == Update(group, targets[i], op)
  {
    seq(|targets|, i requires 0 <= i < |targets| => Update(group, targets[i], op))
  }

  /**
   * `runGroupAction`: each target is updated by itself; the ones the connection
   * accepts and the ones it refuses are collected in order.
   */
  method RunGroupAction(group: string, op: UpdateOp, targets: seq<string>, net: Net)
    returns (ok: seq<string>, failed: seq<string>, acts: seq<Action>)
    ensures ok == Accepted(targets, net.updateFails) && failed == Refused(targets, net.updateFails)
    ensures acts == Updates(group, targets, op)
  {
    ok, failed, acts := [], [], [];
    var i := 0;
    while i < |targets|
      invariant 0 <= i <= |targets|
      invariant ok == Accepted(targets[..i], net.updateFails)
      invariant failed == Refused(targets[..i], net.updateFails)
      invariant acts == Updates(group, targets[..i], op)
    {
      var jid := targets[i];
      assert targets[..i + 1][..i] == targets[..i] && targets[..i + 1][i] == jid;
      acts := acts + [Update(group, jid, op)];
      if jid in net.updateFails {
        failed := failed + [jid];
      } else {
        ok := ok + [jid];
      }
      i := i + 1;
    }
    assert targets[..i] == targets;
  }

  // ----- reports -------------------------------------------------------------------

  /** The number of failed users a report names before it only counts the rest. */
  const ListLimit: nat := 5

  function DoneLines(op: UpdateOp, ok: seq<string>): seq<ReportLine> {
    if |ok| > 0 then [Done(op, |ok|)] else []
  }

  function FailedLines(op: UpdateOp, failed: seq<string>): seq<ReportLine> {
    if |failed| > 0 then [NotDone(op, |failed|, FormatJids(failed, ListLimit))] else []
  }

  /** The report of `kick`, `promote` and `demote`. */
  function UpdateReport(op: UpdateOp, ok: seq<string>, failed: seq<string>): Reply {
    Report(DoneLines(op, ok) + FailedLines(op, failed))
  }

  /** The users a report says were updated or not. */
  function Tally(lines: seq<ReportLine>): nat {
    if lines == [] then 0
    else (match lines[0] case Done(_, n) => n case NotDone(_, n, _) => n case _ => 0) + Tally(lines[1..])
  }

  /** A report accounts for every target once, so it is never empty when there were targets. */
  lemma ReportAccounts(op: UpdateOp, targets: seq<string>, fails: set<string>)
    ensures var lines := DoneLines(op, Accepted(targets, fails)) + FailedLines(op, Refused(targets, fails));
      Tally(lines) == |targets| && (targets != [] ==> lines != [])
  {
    SplitSizes(targets, fails);
    var a, r := Accepted(targets, fails), Refused(targets, fails);
    var d, f := DoneLines(op, a), FailedLines(op, r);
    assert Tally(f) == |r| by {
      if f != [] {
        assert f[1..] == [];
      }
    }
    if d != [] {
      assert (d + f)[0] == Done(op, |a|) && (d + f)[1..] == f;
    } else {
      assert d + f == f;
    }
  }

  /** A joined list starts with its first element. */
  lemma JoinStarts(xs: seq<string>, sep: string)
    requires xs != []
    ensures |Join(xs, sep)| >= |xs[0]|
  {
  }

  /** The failed users of a report about normalised targets are always listed. */
  lemma FailedListShown(failed: seq<string>)
    requires failed != [] && AllCanonical(failed)
    ensures FormatJids(failed, ListLimit) != ""
  {
    NormalizeAllOfCanonical(failed);
    var ids := UserIds(failed);
    assert ids[0] != [];
    if |ids| <= ListLimit {
      JoinStarts(ids, ", ");
    }
  }

  // ----- targets ---------------------------------------------------------------------

  /** `getBotJid` of the connection. */
  function BotOf(net: Net): Option<string> {
    BotJid(net.userId, net.userJid)
  }

  /** `resolveTargets`: the targets a handler works on, sanitised against the bot. */
  function Resolved(net: Net, raw: seq<string>): (t: seq<string>)
    ensures NoDup(t) && AllCanonical(t)
    ensures BotOf(net).Some? ==> BotOf(net).value !in t
  {
    SanitizeTargets(BotOf(net), raw)
  }

  /** The examples the handlers reply with when no target is left. */
  const KickExample: string := "kick @شخص"
  const BanExample: string := "ban @شخص"
  const UnbanExample: string := "unban +9665XXXXXXX"
  const MuteExample: string := "mute @شخص 10m"
  const UnmuteExample: string := "unmute @شخص"
  const PromoteExample: string := "promote @شخص"
  const DemoteExample: string := "demote @شخص"

  function UpdateExample(op: UpdateOp): string {
    match op
    case Remove => KickExample
    case Promote => PromoteExample
    case Demote => DemoteExample
  }

  // ----- kick, promote, demote ---------------------------------------------------------

  /**
   * `kick` (a removal), `promote` and `demote`: one update per target, then the
   * report of what was and was not done.
   */
  method UpdateCommand(op: UpdateOp, group: string, raw: seq<string>, prefix: string, net: Net)
    returns (acts: seq<Action>)
    ensures var t := Resolved(net, raw);
      && (t == [] ==> acts == [Quoted(group, NoTargets(prefix + UpdateExample(op)))])
      && (t != [] ==> acts == Updates(group, t, op)
                             + [Quoted(group, UpdateReport(op, Accepted(t, net.updateFails), Refused(t, net.updateFails)))])
  {
    var targets := Resolved(net, raw);
    if targets == [] {
      return [Quoted(group, NoTargets(prefix + UpdateExample(op)))];
    }
    var ok, failed, updates := RunGroupAction(group, op, targets, net);
    acts := updates + [Quoted(group, UpdateReport(op, ok, failed))];
  }

  // ----- ban -------------------------------------------------------------------------

  /** The document after `addBans`. */
  function BanData(d: StoreData, group: string, users: seq<string>, now: int): StoreData {
    if IsGroupJid(group) then
      var g := GroupAt(d, group, now);
      PutGroup(d, group, g.(bans := Added(g.bans, users)))
    else d
  }

  /** The number of bans `addBans` adds. */
  function BanCount(d: StoreData, group: string, users: seq<string>, now: int): nat {
    if IsGroupJid(group) then |Minus(Incoming(users), GroupAt(d, group, now).bans)| else 0
  }

  /** `addBans` of the removed users, in terms of the document before. */
  method StoreBans(store: Store, group: string, users: seq<string>, now: int) returns (added: nat)
    modifies store
    ensures added == BanCount(old(store.data), group, users, now)
    ensures store.data == BanData(old(store.data), group, users, now)
    ensures store.saved == (if IsGroupJid(group) then Some(store.data) else old(store.saved))
  {
    var r := store.AddBans(group, users, now);
    added := r.changed;
  }

  /** The lines of the `ban` report: removals, whether they were stored, failures. */
  function BanLines(ok: seq<string>, failed: seq<string>, added: nat): seq<ReportLine> {
    DoneLines(Remove, ok)
    + (if |ok| > 0 then (if added > 0 then [BanSaved(added)] else [AlreadyBanned]) else [])
    + FailedLines(Remove, failed)
  }

  function BanReply(ok: seq<string>, failed: seq<string>, added: nat): Reply {
    var lines := BanLines(ok, failed, added);
    if lines == [] then NothingDone else Report(lines)
  }

  /**
   * `ban`: the targets are removed one at a time; those removed are added to the
   * ban list (the file is written), and the report says how many bans are new.
   */
  method BanCommand(store: Store, group: string, raw: seq<string>, prefix: string, net: Net, now: int)
    returns (acts: seq<Action>)
    modifies store
    ensures var t := Resolved(net, raw);
      && (t == [] ==> acts == [Quoted(group, NoTargets(prefix + BanExample))]
                      && store.data == old(store.data) && store.saved == old(store.saved))
      && (t != [] ==>
            var ok := Accepted(t, net.updateFails);
            var added := if |ok| > 0 then BanCount(old(store.data), group, ok, now) else 0;
            && acts == Updates(group, t, Remove) + [Quoted(group, BanReply(ok, Refused(t, net.updateFails), added))]
            && store.data == (if |ok| > 0 then BanData(old(store.data), group, ok, now) else old(store.data))
            && store.saved == (if |ok| > 0 && IsGroupJid(group) then Some(store.data) else old(store.saved)))
  {
    var targets := Resolved(net, raw);
    if targets == [] {
      return [Quoted(group, NoTargets(prefix + BanExample))];
    }
    var ok, failed, updates := RunGroupAction(group, Remove, targets, net);
    var added := 0;
    if |ok| > 0 {
      added := StoreBans(store, group, ok, now);
    }
    acts := updates + [Quoted(group, BanReply(ok, failed, added))];
  }

  /** With targets, the `ban` report is never the "nothing done" answer. */
  lemma BanReportsSomething(targets: seq<string>, fails: set<string>, added: nat)
    requires targets != []
    ensures BanReply(Accepted(targets, fails), Refused(targets, fails), added).Report?
  {
    SplitSizes(targets, fails);
  }

  /** Every user a ban stores is banned when the group is next read, at any time. */
  lemma BannedAfterBan(d: StoreData, group: string, users: seq<string>, now: int, later: int, u: string)
    requires IsGroupJid(group) && u in users && NormalizeUserJid(u).Some?
    ensures Listed(GroupAt(BanData(d, group, users, now), group, later).bans, u)
  {
    var g := GroupAt(d, group, now);
    AddedSpec(g.bans, users, "");
    GroupAtPut(d, group, g.(bans := Added(g.bans, users)), later, group);
    ListedAfterChange(g.bans, users, u);
  }

  /** The count a ban reports is the number of distinct users named that were not banned yet. */
  lemma BanCountsNew(d: StoreData, group: string, users: seq<string>, now: int)
    requires IsGroupJid(group)
    ensures var g := GroupAt(d, group, now);
      BanCount(d, group, users, now) == |Elems(Incoming(users)) - Elems(g.bans)|
  {
    var g := GroupAt(d, group, now);
    AddedSpec(g.bans, users, "");
  }

  // ----- unban -------------------------------------------------------------------------

  /** The document after `removeBans`. */
  function UnbanData(d: StoreData, group: string, users: seq<string>, now: int): StoreData {
    if IsGroupJid(group) then
      var g := GroupAt(d, group, now);
      PutGroup(d, group, g.(bans := Removed(g.bans, users)))
    else d
  }

  /** The number of bans `removeBans` lifts. */
  function UnbanCount(d: StoreData, group: string, users: seq<string>, now: int): nat {
    if IsGroupJid(group) then
      var g := GroupAt(d, group, now);
      |g.bans| - |Removed(g.bans, users)|
    else 0
  }

  /** `removeBans` of the targets, in terms of the document before. */
  method LiftBans(store: Store, group: string, users: seq<string>, now: int) returns (removed: nat)
    modifies store
    ensures removed == UnbanCount(old(store.data), group, users, now)
    ensures store.data == UnbanData(old(store.data), group, users, now)
    ensures store.saved == (if IsGroupJid(group) then Some(store.data) else old(store.saved))
  {
    var r := store.RemoveBans(group, users, now);
    removed := r.changed;
  }

  function UnbanReply(removed: nat): Reply {
    if removed == 0 then NoBans else Unbanned(removed)
  }

  /** The command message is deleted when the targets are phone numbers. */
  function UnbanDeletes(group: string, key: Option<Key>, source: Option<TargetSource>): seq<Action> {
    if source == Some(FromNumbers) && key.Some? then [Delete(group, key.value)] else []
  }

  /**
   * `unban`: when the targets are phone numbers the command message is deleted
   * first and the answer does not quote it; the users named are taken off the ban
   * list and the answer says how many were on it.
   */
  method UnbanCommand(store: Store, group: string, key: Option<Key>, source: Option<TargetSource>, raw: seq<string>,
                      prefix: string, net: Net, now: int)
    returns (acts: seq<Action>)
    modifies store
    ensures var t := Resolved(net, raw);
      var quoted := source != Some(FromNumbers);
      var pre := UnbanDeletes(group, key, source);
      && (t == [] ==> acts == pre + [Send(group, NoTargets(prefix + UnbanExample), quoted, [])]
                      && store.data == old(store.data) && store.saved == old(store.saved))
      && (t != [] ==> acts == pre + [Send(group, UnbanReply(UnbanCount(old(store.data), group, t, now)), quoted, [])]
                      && store.data == UnbanData(old(store.data), group, t, now)
                      && store.saved == (if IsGroupJid(group) then Some(store.data) else old(store.saved)))
  {
    var byNumber := source == Some(FromNumbers);
    acts := [];
    if byNumber && key.Some? {
      acts := [Delete(group, key.value)];
    }
    var targets := Resolved(net, raw);
    if targets == [] {
      acts := acts + [Send(group, NoTargets(prefix + UnbanExample), !byNumber, [])];
      return;
    }
    var removed := LiftBans(store, group, targets, now);
    acts := acts + [Send(group, UnbanReply(removed), !byNumber, [])];
  }

  /** No user an unban names is banned when the group is next read. */
  lemma UnbannedAfterUnban(d: StoreData, group: string, users: seq<string>, now: int, later: int, u: string)
    requires IsGroupJid(group) && u in users && NormalizeUserJid(u).Some?
    ensures !Listed(GroupAt(UnbanData(d, group, users, now), group, later).bans, u)
  {
    var g := GroupAt(d, group, now);
    RemovedSpec(g.bans, users, "");
    GroupAtPut(d, group, g.(bans := Removed(g.bans, users)), later, group);
    ListedAfterChange(g.bans, users, u);
  }

  /** The count an unban reports is the number of users named that were banned. */
  lemma UnbanCountsBanned(d: StoreData, group: string, users: seq<string>, now: int)
    requires IsGroupJid(group)
    ensures var g := GroupAt(d, group, now);
      UnbanCount(d, group, users, now) == |Elems(g.bans) * Elems(Incoming(users))|
  {
    var g := GroupAt(d, group, now);
    RemovedSpec(g.bans, users, "");
  }

  // ----- mute --------------------------------------------------------------------------

  /** Each argument read as a duration. */
  function DurationsOf(args: seq<string>): (r: seq<Option<Duration>>)
    ensures |r| == |args| && forall i :: 0 <= i < |args| ==> r[i] == ParseDurationToken(args[i])
  {
    seq(|args|, i requires 0 <= i < |args| => ParseDurationToken(args[i]))
  }

  /** The first value present in a list. */
  function FirstSome<T>(xs: seq<Option<T>>): Option<T> {
    if xs == [] then None else if xs[0].Some? then xs[0] else FirstSome(xs[1..])
  }

  /** The first value present is the one at the first index where a value is present. */
  lemma {:induction false} FirstSomeSpec<T>(xs: seq<Option<T>>)
    ensures FirstSome(xs).None? <==> forall i :: 0 <= i < |xs| ==> xs[i].None?
    ensures FirstSome(xs).Some? ==>
              exists i :: 0 <= i < |xs| && xs[i] == FirstSome(xs) && forall j :: 0 <= j < i ==> xs[j].None?
  {
    if xs != [] && xs[0].None? {
      FirstSomeSpec(xs[1..]);
      assert forall i :: 1 <= i < |xs| ==> xs[i] == xs[1..][i - 1];
      if FirstSome(xs).Some? {
        var i :| 0 <= i < |xs[1..]| && xs[1..][i] == FirstSome(xs) && forall j :: 0 <= j < i ==> xs[1..][j].None?;
        assert xs[i + 1] == FirstSome(xs);
        assert forall j :: 0 <= j < i + 1 ==> xs[j].None? by {
          forall j | 0 <= j < i + 1 ensures xs[j].None? {
            if j > 0 {
              assert xs[j] == xs[1..][j - 1];
            }
          }
        }
      }
    }
  }

  /** The loop of `mute` over its arguments: the first one read as a duration decides. */
  method FindDuration(args: seq<string>) returns (d: Option<Duration>)
    ensures d == FirstSome(DurationsOf(args))
  {
    var i := 0;
    while i < |args|
      invariant 0 <= i <= |args|
      invariant FirstSome(DurationsOf(args)[i..]) == FirstSome(DurationsOf(args))
    {
      var parsed := ParseDurationToken(args[i]);
      if parsed.Some? {
        assert DurationsOf(args)[i..][0] == parsed;
        return parsed;
      }
      assert DurationsOf(args)[i..][1..] == DurationsOf(args)[i + 1..];
      i := i + 1;
    }
    assert DurationsOf(args)[i..] == [];
    return None;
  }

  /** When a mute ends: the duration from now, or never. */
  function Until(d: Option<Duration>, now: int): Option<int> {
    if d.Some? then Some(now + d.value.ms) else None
  }

  /** A mute with a duration read from an argument ends after now, so it is stored. */
  lemma UntilLater(args: seq<string>, now: int)
    ensures var u := Until(FirstSome(DurationsOf(args)), now); u.None? || u.value > now
  {
    var ds := DurationsOf(args);
    var d := FirstSome(ds);
    FirstSomeSpec(ds);
    if d.Some? {
      var i :| 0 <= i < |ds| && ds[i] == d;
      assert d == ParseDurationToken(args[i]);
      ParsedPositive(args[i]);
    }
  }

  /** A duration read from an argument lasts a positive time. */
  lemma ParsedPositive(token: string)
    requires ParseDurationToken(token).Some?
    ensures ParseDurationToken(token).value.ms > 0
  {
    var v := ParseDurationToken(token).value;
    assert ValidDuration(v);
    assert UnitMs(v.unit) > 0;
  }

  /** The document after `addMutes`, with one clock reading. */
  function MuteData(d: StoreData, group: string, users: seq<string>, until: Option<int>, now: int): StoreData {
    if !IsGroupJid(group) then d
    else if until.Some? && until.value <= now then Touched(d, group, now)
    else
      var g := GroupAt(d, group, now);
      PutGroup(d, group, g.(mutes := AddAll(g.mutes, Incoming(users), until)))
  }

  /** What `addMutes` reports. */
  function MuteCountOf(d: StoreData, group: string, users: seq<string>, until: Option<int>, now: int): MuteCount {
    if !IsGroupJid(group) then MuteCount(0, 0, 0)
    else
      var g := GroupAt(d, group, now);
      if until.Some? && until.value <= now then MuteCount(0, 0, |g.mutes|)
      else
        var inc := Incoming(users);
        MuteCount(|Minus(inc, MuteJids(g.mutes))|, |Changed(g.mutes, inc, until)|, |AddAll(g.mutes, inc, until)|)
  }

  /** Whether `addMutes` writes the file. */
  predicate MuteWrites(d: StoreData, group: string, users: seq<string>, until: Option<int>, now: int) {
    && IsGroupJid(group) && (until.None? || until.value > now)
    && var c := MuteCountOf(d, group, users, until, now); c.added > 0 || c.updated > 0
  }

  /** `addMutes` of the targets with one clock reading, in terms of the document before. */
  method StoreMutes(store: Store, group: string, users: seq<string>, until: Option<int>, now: int) returns (c: MuteCount)
    modifies store
    ensures c == MuteCountOf(old(store.data), group, users, until, now)
    ensures store.data == MuteData(old(store.data), group, users, until, now)
    ensures store.saved == (if MuteWrites(old(store.data), group, users, until, now) then Some(store.data) else old(store.saved))
  {
    c := store.AddMutes(group, users, until, now, now);
  }

  /** The note on the bot's rights the mute report ends with. */
  function BotNote(s: AdminStatus): seq<ReportLine> {
    if !s.ok then [BotUnverified] else if !s.isAdmin then [BotNotAdminNote] else []
  }

  /** The lines of the `mute` report. */
  function MuteLines(count: nat, d: Option<Duration>, c: MuteCount, note: seq<ReportLine>): seq<ReportLine> {
    [MutedFor(count, d)] + (if c.added == 0 && c.updated == 0 then [AlreadyMuted] else []) + note
  }

  /**
   * `mute`: the first argument that reads as a duration sets how long the mute
   * lasts (a duration over a year is refused and nothing is stored); the users are
   * muted, and when the bot is known the report notes whether it can delete the
   * muted users' messages.
   */
  method MuteCommand(store: Store, service: Service, group: string, raw: seq<string>, args: seq<string>,
                     prefix: string, net: Net, now: int)
    returns (acts: seq<Action>)
    modifies store, service
    ensures var t := Resolved(net, raw);
      var d := FirstSome(DurationsOf(args));
      && (t == [] ==> acts == [Quoted(group, NoTargets(prefix + MuteExample))])
      && (t != [] && d.Some? && d.value.tooLarge ==> acts == [Quoted(group, DurationTooLarge)])
      && (t == [] || (d.Some? && d.value.tooLarge) ==>
            store.data == old(store.data) && store.saved == old(store.saved) && service.cache == old(service.cache))
    ensures var t := Resolved(net, raw);
      var d := FirstSome(DurationsOf(args));
      var until := Until(d, now);
      var bot := BotOf(net);
      t != [] && (d.None? || !d.value.tooLarge) ==>
        && store.data == MuteData(old(store.data), group, t, until, now)
        && store.saved == (if MuteWrites(old(store.data), group, t, until, now) then Some(store.data) else old(store.saved))
        && service.cache == (if bot.Some? then CacheFor(old(service.cache), service.ttl, Some(group), bot, now, net.meta)
                             else old(service.cache))
        && var note := if bot.Some? then BotNote(StatusFor(old(service.cache), service.ttl, Some(group), bot, now, net.meta)) else [];
           acts == [Quoted(group, Report(MuteLines(|t|, d, MuteCountOf(old(store.data), group, t, until, now), note)))]
  {
    assert store as object != service;
    var targets := Resolved(net, raw);
    if targets == [] {
      return [Quoted(group, NoTargets(prefix + MuteExample))];
    }
    var d := FindDuration(args);
    if d.Some? && d.value.tooLarge {
      return [Quoted(group, DurationTooLarge)];
    }
    var until := Until(d, now);
    var c := StoreMutes(store, group, targets, until, now);
    var note := [];
    var bot := BotOf(net);
    if bot.Some? {
      var s := service.GetAdminStatus(Some(group), bot, now, net.meta);
      note := BotNote(s);
    }
    acts := [Quoted(group, Report(MuteLines(|targets|, d, c, note)))];
  }

  /** A user a mute names is muted, until the mute's end, when the group is next read. */
  lemma MutedAfterMute(d: StoreData, group: string, users: seq<string>, until: Option<int>, now: int, u: string)
    requires IsGroupJid(group) && u in users && NormalizeUserJid(u).Some?
    requires until.None? || until.value > now
    ensures var g := GroupAt(MuteData(d, group, users, until, now), group, now);
      MuteStatusOf(MuteOf(g.mutes, NormalizeUserJid(u).value), now) == MuteStatus(true, until)
  {
    var g := GroupAt(d, group, now);
    AddAllValid(g.mutes, Incoming(users), until);
    GroupAtPut(d, group, g.(mutes := AddAll(g.mutes, Incoming(users), until)), now, group);
    MutedAfterAdd(g.mutes, users, until, u, now);
  }

  // ----- unmute ------------------------------------------------------------------------

  /** The document after `removeMutes`. */
  function UnmuteData(d: StoreData, group: string, users: seq<string>, now: int): StoreData {
    if IsGroupJid(group) then
      var g := GroupAt(d, group, now);
      PutGroup(d, group, g.(mutes := RemoveAll(g.mutes, Incoming(users))))
    else d
  }

  /** The number of mutes `removeMutes` lifts. */
  function UnmuteCount(d: StoreData, group: string, users: seq<string>, now: int): nat {
    if IsGroupJid(group) then
      var g := GroupAt(d, group, now);
      |g.mutes| - |RemoveAll(g.mutes, Incoming(users))|
    else 0
  }

  /** `removeMutes` of the targets, in terms of the document before. */
  method LiftMutes(store: Store, group: string, users: seq<string>, now: int) returns (removed: nat)
    modifies store
    ensures removed == UnmuteCount(old(store.data), group, users, now)
    ensures store.data == UnmuteData(old(store.data), group, users, now)
    ensures store.saved == (if IsGroupJid(group) && removed > 0 then Some(store.data) else old(store.saved))
  {
    var r := store.RemoveMutes(group, users, now);
    removed := r.changed;
  }

  function UnmuteReply(removed: nat): Reply {
    if removed == 0 then NoMutes else Unmuted(removed)
  }

  /** `unmute`: the users named lose their mute; the answer says how many had one. */
  method UnmuteCommand(store: Store, group: string, raw: seq<string>, prefix: string, net: Net, now: int)
    returns (acts: seq<Action>)
    modifies store
    ensures var t := Resolved(net, raw);
      && (t == [] ==> acts == [Quoted(group, NoTargets(prefix + UnmuteExample))]
                      && store.data == old(store.data) && store.saved == old(store.saved))
      && (t != [] ==> var n := UnmuteCount(old(store.data), group, t, now);
                      && acts == [Quoted(group, UnmuteReply(n))]
                      && store.data == UnmuteData(old(store.data), group, t, now)
                      && store.saved == (if IsGroupJid(group) && n > 0 then Some(store.data) else old(store.saved)))
  {
    var targets := Resolved(net, raw);
    if targets == [] {
      return [Quoted(group, NoTargets(prefix + UnmuteExample))];
    }
    var removed := LiftMutes(store, group, targets, now);
    acts := [Quoted(group, UnmuteReply(removed))];
  }

  /** No user an unmute names is muted when the group is next read, at any time. */
  lemma UnmutedAfterUnmute(d: StoreData, group: string, users: seq<string>, now: int, later: int, u: string)
    requires IsGroupJid(group) && u in users && NormalizeUserJid(u).Some?
    ensures var g := GroupAt(UnmuteData(d, group, users, now), group, later);
      MuteStatusOf(MuteOf(g.mutes, NormalizeUserJid(u).value), later) == MuteStatus(false, None)
  {
    var g := GroupAt(d, group, now);
    RemoveAllValid(g.mutes, Incoming(users));
    GroupAtPut(d, group, g.(mutes := RemoveAll(g.mutes, Incoming(users))), later, group);
    UnmutedAfterRemove(g.mutes, users, u, later);
  }
}
