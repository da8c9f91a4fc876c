/**
 * The command table the router dispatches on: every command's name, aliases,
 * category and the three flags the router's gates read, in the order the router
 * assembles them (core, moderation, fun, admin, then `targets`), and the lookup
 * index built from it.
 */
module Commands {
  import opened Wrappers
  import opened Text

  /** What a command's handler does. */
  datatype Handler =
    | HelpCmd | MenuCmd
    | RulesCmd | AntiLinkCmd | AntiImageCmd | AntiStickerCmd | FilterCmd | ExemptCmd | WelcomeCmd
    | PingCmd | AuthCmd | DiceCmd | QuoteCmd | TodayCmd | GameCmd | UptimeCmd
    | KickCmd | BanCmd | UnbanCmd | MuteCmd | UnmuteCmd | PromoteCmd | DemoteCmd
    | TargetsCmd

  /** A command definition. */
  datatype CommandDef = CommandDef(
    name: string,
    aliases: seq<string>,
    category: string,
    privileged: bool,
    groupOnly: bool,
    requiresBotAdmin: bool,
    handler: Handler)

  /** An unprotected group command. */
  function Open(name: string, aliases: seq<string>, category: string, h: Handler): CommandDef {
    CommandDef(name, aliases, category, false, true, false, h)
  }

  /** A protected group command. */
  function Protected(name: string, category: string, requiresBotAdmin: bool, h: Handler): CommandDef {
    CommandDef(name, [], category, true, true, requiresBotAdmin, h)
  }

  /** The commands in the order the router registers them. */
  const Registry: seq<CommandDef> := [
    Open("help", [], "fun", HelpCmd),
    Open("menu", [], "fun", MenuCmd),
    Open("rules", [], "moderation", RulesCmd),
    Protected("antilink", "moderation", false, AntiLinkCmd),
    Protected("antiimage", "moderation", false, AntiImageCmd),
    Protected("antisticker", "moderation", false, AntiStickerCmd),
    Protected("filter", "moderation", false, FilterCmd),
    Protected("exempt", "moderation", false, ExemptCmd),
    Protected("welcome", "moderation", false, WelcomeCmd),
    Open("ping", ["p"], "fun", PingCmd),
    Open("auth", ["whoami"], "fun", AuthCmd),
    Open("dice", ["roll"], "fun", DiceCmd),
    Open("quote", [], "fun", QuoteCmd),
    Open("today", ["daily"], "fun", TodayCmd),
    Open("game", ["event"], "fun", GameCmd),
    Open("uptime", [], "fun", UptimeCmd),
    Protected("kick", "admin", true, KickCmd),
    Protected("ban", "admin", true, BanCmd),
    Protected("unban", "admin", false, UnbanCmd),
    Protected("mute", "admin", false, MuteCmd),
    Protected("unmute", "admin", false, UnmuteCmd),
    Protected("promote", "admin", true, PromoteCmd),
    Protected("demote", "admin", true, DemoteCmd),
    Open("targets", ["target"], "fun", TargetsCmd)
  ]

  /** Every registered command works in groups only, so the group-only gate turns every command away outside a group. */
  lemma RegistryGroupOnly()
    ensures forall i :: 0 <= i < |Registry| ==> Registry[i].groupOnly
  {
  }

  /** The keys a command is found under: its name, then its aliases, lower-cased. */
  function KeysOf(c: CommandDef): (ks: seq<string>)
    ensures |ks| == 1 + |c.aliases| && ks[0] == Lower(c.name)
    ensures forall j :: 0 <= j < |c.aliases| ==> ks[j + 1] == Lower(c.aliases[j])
  {
    [Lower(c.name)] + seq(|c.aliases|, j requires 0 <= j < |c.aliases| => Lower(c.aliases[j]))
  }

  /** The index after registering `c` under each of `keys`, one after the other. */
  function Register(m: map<string, CommandDef>, keys: seq<string>, c: CommandDef): (r: map<string, CommandDef>)
    ensures forall k :: k in r <==> k in m || k in keys
    ensures forall k :: k in r ==> r[k] == if k in keys then c else m[k]
    decreases |keys|
  {
    if keys == [] then m else Register(m[keys[0] := c], keys[1..], c)
  }

  /** The index of a list of commands: each one registered in turn, so a later one wins a shared key. */
  function IndexOf(cmds: seq<CommandDef>): map<string, CommandDef>
    decreases |cmds|
  {
    if cmds == [] then map[] else Register(IndexOf(cmds[..|cmds| - 1]), KeysOf(cmds[|cmds| - 1]), cmds[|cmds| - 1])
  }

  /** A key is in the index exactly when some command has it. */
  lemma {:induction false} IndexHas(cmds: seq<CommandDef>, k: string)
    ensures k in IndexOf(cmds) <==> exists i :: 0 <= i < |cmds| && k in KeysOf(cmds[i])
    decreases |cmds|
  {
    if cmds != [] {
      var n := |cmds| - 1;
      var init := cmds[..n];
      IndexHas(init, k);
      if k in KeysOf(cmds[n]) {
        assert k in IndexOf(cmds);
      } else if k in IndexOf(init) {
        var i :| 0 <= i < |init| && k in KeysOf(init[i]);
        assert init[i] == cmds[i];
      } else {
        forall i | 0 <= i < |cmds| ensures k !in KeysOf(cmds[i]) {
          if i < n {
            assert init[i] == cmds[i];
          }
        }
      }
    }
  }

  /** A key leads to the last command that has it: a later command wins a shared key. */
  lemma {:induction false} IndexLast(cmds: seq<CommandDef>, k: string, i: nat)
    requires i < |cmds| && k in KeysOf(cmds[i])
    requires forall j :: i < j < |cmds| ==> k !in KeysOf(cmds[j])
    ensures k in IndexOf(cmds) && IndexOf(cmds)[k] == cmds[i]
    decreases |cmds|
  {
    var n := |cmds| - 1;
    var init, last := cmds[..n], cmds[n];
    var keys := KeysOf(last);
    assert IndexOf(cmds) == Register(IndexOf(init), keys, last);
    if i == n {
      RegisterHit(IndexOf(init), keys, last, k);
    } else {
      assert init[i] == cmds[i];
      forall j | i < j < |init| ensures k !in KeysOf(init[j]) {
        assert init[j] == cmds[j];
      }
      IndexLast(init, k, i);
      RegisterMiss(IndexOf(init), keys, last, k);
    }
  }

  /** A key being registered now leads to the command being registered. */
  lemma RegisterHit(m: map<string, CommandDef>, keys: seq<string>, c: CommandDef, k: string)
    requires k in keys
    ensures k in Register(m, keys, c) && Register(m, keys, c)[k] == c
  {
  }

  /** Registering other keys leaves a key as it was. */
  lemma RegisterMiss(m: map<string, CommandDef>, keys: seq<string>, c: CommandDef, k: string)
    requires k !in keys && k in m
    ensures k in Register(m, keys, c) && Register(m, keys, c)[k] == m[k]
  {
  }

  /** Every command the index leads to is one of the registered commands. */
  lemma {:induction false} IndexFrom(cmds: seq<CommandDef>, k: string)
    requires k in IndexOf(cmds)
    ensures IndexOf(cmds)[k] in cmds
    decreases |cmds|
  {
    var n := |cmds| - 1;
    var init := cmds[..n];
    if k !in KeysOf(cmds[n]) {
      IndexFrom(init, k);
      assert IndexOf(init)[k] in init;
    }
  }

  /** The command-index build: each command's name, then each alias, lower-cased and registered in turn. */
  method BuildIndex(cmds: seq<CommandDef>) returns (index: map<string, CommandDef>)
    ensures index == IndexOf(cmds)
  {
    index := map[];
    var i := 0;
    while i < |cmds|
      invariant 0 <= i <= |cmds|
      invariant index == IndexOf(cmds[..i])
    {
      var c := cmds[i];
      var keys := KeysOf(c);
      ghost var before := index;
      index := index[keys[0] := c];
      var j := 0;
      while j < |c.aliases|
        invariant 0 <= j <= |c.aliases|
        invariant Register(index, keys[j + 1..], c) == Register(before, keys, c)
      {
        assert keys[j + 1..] == [Lower(c.aliases[j])] + keys[j + 2..];
        index := index[Lower(c.aliases[j]) := c];
        j := j + 1;
      }
      assert keys[j + 1..] == [];
      assert cmds[..i + 1][..i] == cmds[..i];
      i := i + 1;
    }
    assert cmds[..i] == cmds;
  }
}
