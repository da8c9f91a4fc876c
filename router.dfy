/**
 * The command router: for every incoming message it decides whether the message
 * is in scope, runs the mute enforcer and then the moderation enforcer on group
 * messages, parses a command (or hands a plain reply to the menu navigation),
 * looks the command up, applies the gates (group only, allowlist, caller admin,
 * bot admin) and the per-sender cooldowns, and finally runs the handler, with a
 * failure reply when the handler throws.
 *
 * The decisions are pure functions of the message, the connection and the state
 * before the message (`ExitOf`); the class carries out the stages in order.
 */
module Router {
  import opened Wrappers
  import opened Jid
  import opened Message
  import opened ContentRules
  import opened Normalize
  import opened Storage
  import opened GroupAdmin
  import opened Throttle
  import opened Actions
  import opened Parse
  import opened Commands
  import opened Enforcers
  import opened Menu
  import Seqs
  import Text
  import Core
  import ModerationCommands
  import AdminCommands

  /** The status broadcast pseudo-chat, which the router never answers. */
  const StatusBroadcast: string := "status@broadcast"
  /** The time to live of the router's admin-status cache. */
  const AdminCacheTtlMs: int := 30000
  /** The category whose commands share the second, longer cooldown. */
  const FunCategory: string := "fun"

  // ----- scope and identities ----------------------------------------------------

  /**
   * The chat a message is handled in: none for a message without content, the
   * bot's own messages, a missing or empty chat, the status broadcast, and any
   * chat that is neither a group nor a user.
   */
  function ChatOf(env: Envelope): (r: Option<string>)
    ensures r.Some? <==>
              && env.message.Some? && env.key.Some? && !env.key.value.fromMe && env.key.value.remoteJid.Some?
              && (IsGroupJid(env.key.value.remoteJid.value) || IsUserJid(env.key.value.remoteJid.value))
    ensures r.Some? ==> r.value == env.key.value.remoteJid.value && r.value != "" && r.value != StatusBroadcast
  {
    if env.message.None? then None
    else if env.key.Some? && env.key.value.fromMe then None
    else if env.key.None? || env.key.value.remoteJid.None? then None
    else
      var chat := env.key.value.remoteJid.value;
      if chat == "" || chat == StatusBroadcast then None
      else if !IsGroupJid(chat) && !IsUserJid(chat) then None
      else Some(chat)
  }

  /** `normalizeUserJid` of a field that may be missing. */
  function NormalizeField(raw: Option<string>): (r: Option<string>)
    ensures r.Some? ==> Canonical(r.value)
  {
    if raw.None? then None else NormalizeUserJid(raw.value)
  }

  /** The sender: the participant in a group, the chat itself in a private chat. */
  function SenderOf(key: Option<Key>, isGroup: bool): (r: Option<string>)
    ensures r.Some? ==> Canonical(r.value)
    ensures key.None? ==> r.None?
  {
    if key.None? then None
    else NormalizeField(if isGroup then key.value.participant else key.value.remoteJid)
  }

  /** The sender's alternative identity: `participantAlt` in a group, `remoteJidAlt` otherwise. */
  function AltSenderOf(key: Option<Key>, isGroup: bool): (r: Option<string>)
    ensures r.Some? ==> Canonical(r.value)
  {
    if key.None? then None
    else NormalizeField(if isGroup then key.value.participantAlt else key.value.remoteJidAlt)
  }

  /** The sender is allowlisted under either identity. */
  predicate Allowlisted(allowlist: set<string>, sender: Option<string>, alt: Option<string>) {
    (sender.Some? && sender.value in allowlist) || (alt.Some? && alt.value in allowlist)
  }

  /** The configured allowlist as the router holds it: the entries that normalise, normalised. */
  function AllowSet(config: seq<string>): (r: set<string>)
    ensures forall x :: x in r ==> Canonical(x)
  {
    Seqs.Elems(NormalizeAll(config))
  }

  /** A user is in the router's allowlist exactly when some configured entry normalises to it. */
  lemma AllowSetMembers(config: seq<string>, x: string)
    ensures x in AllowSet(config) <==> exists i :: 0 <= i < |config| && NormalizeUserJid(config[i]) == Some(x)
  {
    NormalizeAllMembers(config, x);
  }

  // ----- the gates ---------------------------------------------------------------

  /** `getAdminStatus` for a user of the chat, from the metadata the lookup sees. */
  function Status(seen: Fetch, user: Option<string>): AdminStatus {
    if Present(user) then StatusOf(seen, user.value) else AdminStatus(true, false)
  }

  /**
   * The reply a command is refused with, if any: group-only commands outside a
   * group; then, for protected commands, a sender not on the allowlist, a caller
   * who cannot be verified or is not an admin (when that is required), and a bot
   * that cannot be identified, cannot be verified or is not an admin (when the
   * command needs it).
   */
  function GateDenial(def: CommandDef, isGroup: bool, isAllowlisted: bool, allowlistSize: nat, requireCallerAdmin: bool,
                      sender: Option<string>, bot: Option<string>, seen: Fetch): Option<Reply>
  {
    if def.groupOnly && !isGroup then Some(GroupOnly)
    else if !def.privileged then None
    else if !isAllowlisted then Some(if allowlistSize == 0 then AllowlistUnset else NotAllowlisted)
    else if requireCallerAdmin && !Status(seen, sender).ok then Some(CannotVerifyAdmin)
    else if requireCallerAdmin && !Status(seen, sender).isAdmin then Some(NotGroupAdmin)
    else if def.requiresBotAdmin && !Present(bot) then Some(CannotVerifyAdmin)
    else if def.requiresBotAdmin && !Status(seen, bot).ok then Some(CannotVerifyAdmin)
    else if def.requiresBotAdmin && !Status(seen, bot).isAdmin then Some(BotNotAdmin)
    else None
  }

  /**
   * The gates run in order: the group check before everything, the allowlist
   * before any admin lookup, the caller before the bot; an open command passes
   * in a group; a protected one passes exactly when every check it needs says yes.
   */
  lemma GateOrder(def: CommandDef, isGroup: bool, isAllowlisted: bool, allowlistSize: nat, requireCallerAdmin: bool,
                  sender: Option<string>, bot: Option<string>, seen: Fetch)
    ensures def.groupOnly && !isGroup ==>
              GateDenial(def, isGroup, isAllowlisted, allowlistSize, requireCallerAdmin, sender, bot, seen) == Some(GroupOnly)
    ensures (isGroup || !def.groupOnly) && !def.privileged ==>
              GateDenial(def, isGroup, isAllowlisted, allowlistSize, requireCallerAdmin, sender, bot, seen).None?
    ensures (isGroup || !def.groupOnly) && def.privileged && !isAllowlisted ==>
              GateDenial(def, isGroup, isAllowlisted, allowlistSize, requireCallerAdmin, sender, bot, seen)
              == Some(if allowlistSize == 0 then AllowlistUnset else NotAllowlisted)
    ensures (isGroup || !def.groupOnly) && def.privileged && isAllowlisted && requireCallerAdmin && !Status(seen, sender).ok ==>
              GateDenial(def, isGroup, isAllowlisted, allowlistSize, requireCallerAdmin, sender, bot, seen) == Some(CannotVerifyAdmin)
    ensures (isGroup || !def.groupOnly) && def.privileged ==>
              (GateDenial(def, isGroup, isAllowlisted, allowlistSize, requireCallerAdmin, sender, bot, seen).None? <==>
                 && isAllowlisted
                 && (requireCallerAdmin ==> Status(seen, sender).ok && Status(seen, sender).isAdmin)
                 && (def.requiresBotAdmin ==> Present(bot) && Status(seen, bot).ok && Status(seen, bot).isAdmin))
  {
  }

  /** A refusal is always one of the fixed denial replies, and the gates never look at metadata unless the sender is allowlisted for a protected command. */
  lemma GateRepliesAndLookups(def: CommandDef, isGroup: bool, isAllowlisted: bool, allowlistSize: nat, requireCallerAdmin: bool,
                              sender: Option<string>, bot: Option<string>, seen: Fetch, seen': Fetch)
    ensures var d := GateDenial(def, isGroup, isAllowlisted, allowlistSize, requireCallerAdmin, sender, bot, seen);
      d.Some? ==> d.value in {GroupOnly, AllowlistUnset, NotAllowlisted, CannotVerifyAdmin, NotGroupAdmin, BotNotAdmin}
    ensures !(def.privileged && isAllowlisted && (isGroup || !def.groupOnly)) ==>
              GateDenial(def, isGroup, isAllowlisted, allowlistSize, requireCallerAdmin, sender, bot, seen)
              == GateDenial(def, isGroup, isAllowlisted, allowlistSize, requireCallerAdmin, sender, bot, seen')
  {
  }

  // ----- the cooldowns -----------------------------------------------------------

  /** `${chat}|${sender}|cmd`: the key every command of a sender in a chat shares. */
  function BaseKey(chat: string, sender: string): string {
    CacheKey(chat, sender, "cmd")
  }

  /** `${chat}|${sender}|fun`: the key the fun commands of a sender in a chat share. */
  function FunKey(chat: string, sender: string): string {
    CacheKey(chat, sender, "fun")
  }

  /** The two cooldown keys of a sender never coincide. */
  lemma KeysDiffer(chat: string, sender: string)
    ensures BaseKey(chat, sender) != FunKey(chat, sender)
  {
    var b, f := BaseKey(chat, sender), FunKey(chat, sender);
    assert b[|b| - 1] == 'd' && f[|f| - 1] == 'n';
  }

  /** The cooldowns apply to a known sender in a group. */
  predicate Throttled(chat: string, sender: Option<string>) {
    sender.Some? && IsGroupJid(chat)
  }

  /**
   * The cooldown reply, if any: the shared command window first, then, for a fun
   * command, the fun window, each with the time still to wait.
   */
  function CooldownDenial(stamps: map<string, int>, commandWindow: int, funWindow: int, chat: string,
                          sender: Option<string>, isFun: bool, now: int): Option<Reply>
  {
    if !Throttled(chat, sender) then None
    else
      var baseWait := CooldownRemaining(stamps, BaseKey(chat, sender.value), commandWindow, now);
      var funWait := CooldownRemaining(stamps, FunKey(chat, sender.value), funWindow, now);
      if baseWait > 0 then Some(CommandCooldown(baseWait))
      else if isFun && funWait > 0 then Some(FunCooldown(funWait))
      else None
  }

  /** The cooldown cache after a command passed: the shared key and, for a fun command, the fun key are stamped, each only when its window is on. */
  function Bumped(stamps: map<string, int>, commandWindow: int, funWindow: int, chat: string,
                  sender: Option<string>, isFun: bool, now: int): map<string, int>
  {
    if !Throttled(chat, sender) then stamps
    else
      var s := if commandWindow > 0 then Stamp(stamps, BaseKey(chat, sender.value), now, CooldownCacheLimit) else stamps;
      if isFun && funWindow > 0 then Stamp(s, FunKey(chat, sender.value), now, CooldownCacheLimit) else s
  }

  /**
   * The shared window is checked first, a command outside the fun category is
   * never held back by the fun window, and every wait is positive and no longer
   * than its window.
   */
  lemma CooldownOrder(stamps: map<string, int>, commandWindow: int, funWindow: int, chat: string,
                      sender: Option<string>, isFun: bool, now: int)
    ensures var d := CooldownDenial(stamps, commandWindow, funWindow, chat, sender, isFun, now);
      && (Throttled(chat, sender) && commandWindow > 0 && Within(stamps, BaseKey(chat, sender.value), commandWindow, now) ==> d.Some? && d.value.CommandCooldown?)
      && (!isFun ==> d.None? || d.value.CommandCooldown?)
      && (d.Some? && d.value.CommandCooldown? ==> 0 < d.value.waitMs && (stamps[BaseKey(chat, sender.value)] >= now ==> d.value.waitMs >= commandWindow))
      && (d.Some? ==> Throttled(chat, sender))
  {
  }

  /**
   * A second command from the same sender in the same group, less than the
   * shared window after one that passed, is held back for exactly the rest of
   * that window (unless the cache was full and got cleared).
   */
  lemma {:induction false} RepeatWaits(stamps: map<string, int>, commandWindow: int, funWindow: int, chat: string,
                                       sender: string, isFun: bool, isFun': bool, now: int, later: int)
    requires |stamps| + 2 <= CooldownCacheLimit && IsGroupJid(chat)
    requires commandWindow > 0 && now <= later < now + commandWindow
    ensures CooldownDenial(Bumped(stamps, commandWindow, funWindow, chat, Some(sender), isFun, now),
                           commandWindow, funWindow, chat, Some(sender), isFun', later)
            == Some(CommandCooldown(commandWindow - (later - now)))
  {
    var b := BaseKey(chat, sender);
    var s := Stamp(stamps, b, now, CooldownCacheLimit);
    assert b in s && s[b] == now;
    var s' := Bumped(stamps, commandWindow, funWindow, chat, Some(sender), isFun, now);
    if isFun && funWindow > 0 {
      KeysDiffer(chat, sender);
      assert |s| <= |stamps| + 1;
      assert b in s' && s'[b] == now;
    }
    assert s'[b] == now;
  }

  /**
   * A fun command after the shared window has passed but within the fun window
   * of an earlier fun command is held back by the fun window.
   */
  lemma {:induction false} FunRepeatWaits(stamps: map<string, int>, commandWindow: int, funWindow: int, chat: string,
                                          sender: string, now: int, later: int)
    requires |stamps| + 2 <= CooldownCacheLimit && IsGroupJid(chat)
    requires funWindow > 0 && now + commandWindow <= later < now + funWindow
    ensures CooldownDenial(Bumped(stamps, commandWindow, funWindow, chat, Some(sender), true, now),
                           commandWindow, funWindow, chat, Some(sender), true, later)
            == Some(FunCooldown(funWindow - (later - now)))
  {
    var b, f := BaseKey(chat, sender), FunKey(chat, sender);
    KeysDiffer(chat, sender);
    var s := if commandWindow > 0 then Stamp(stamps, b, now, CooldownCacheLimit) else stamps;
    assert |s| < CooldownCacheLimit;
    var s' := Stamp(s, f, now, CooldownCacheLimit);
    assert f in s' && s'[f] == now;
    assert CooldownRemaining(s', b, commandWindow, later) == 0 by {
      if commandWindow > 0 {
        assert b in s && s[b] == now;
        assert b in s' && s'[b] == now;
      }
    }
  }

  // ----- what happens to a message -----------------------------------------------

  /** Where the handling of a message ends. */
  datatype Exit =
    | Ignored                 // out of scope: nothing happens at all
    | MutedExit               // the muted sender's message was enforced
    | NoCommand               // no command: at most the menu navigation
    | UnknownExit             // a command name the index does not know
    | Denied(r: Reply)        // refused by a gate
    | Cooled(r: Reply)        // held back by a cooldown
    | Ran(def: CommandDef)    // the handler ran

  /** The handlers of the moderation commands, which answer with a reply and may change the store. */
  predicate ModerationHandler(h: Handler) {
    h.RulesCmd? || h.AntiLinkCmd? || h.AntiImageCmd? || h.AntiStickerCmd? || h.FilterCmd? || h.ExemptCmd? || h.WelcomeCmd?
  }

  /** The fun commands reply with one text and touch no state. */
  predicate FunHandler(h: Handler) {
    h.PingCmd? || h.AuthCmd? || h.DiceCmd? || h.QuoteCmd? || h.TodayCmd? || h.GameCmd? || h.UptimeCmd? || h.TargetsCmd?
  }

  /** A sametime view of the admin cache of a chat: as it was, or after one lookup. */
  predicate SameView(c: map<string, CacheEntry>, c0: map<string, CacheEntry>, ttl: int, chat: string, now: int, fetch: Fetch) {
    c == c0 || c == AfterLookup(c0, ttl, chat, now, fetch)
  }

  /** A lookup sees the same metadata in any view of the cache, and a further lookup keeps it a view. */
  lemma ViewStable(c: map<string, CacheEntry>, c0: map<string, CacheEntry>, ttl: int, chat: string, now: int, fetch: Fetch)
    requires SameView(c, c0, ttl, chat, now, fetch)
    ensures Seen(c, ttl, chat, now, fetch) == Seen(c0, ttl, chat, now, fetch)
    ensures SameView(AfterLookup(c, ttl, chat, now, fetch), c0, ttl, chat, now, fetch)
  {
    LookupsAgree(c0, ttl, chat, now, fetch);
  }

  /** `createCommandRouter`: the router's configuration, caches, menu and command index. */
  class CommandRouter {
    const store: Store
    const service: Service
    const throttle: Throttle
    const menu: Manager
    /** The normalised allowlist. */
    const allowlist: set<string>
    const prefix: string
    const requireCallerAdmin: bool
    /** The registered commands, in registration order. */
    const commands: seq<CommandDef>
    /** `commandIndex`: names and aliases, lower-cased, to command definitions. */
    const index: map<string, CommandDef>
    /** The link pattern of the moderation rules. */
    const matcher: LinkMatcher

    /** How the parts were put together: facts about constant fields only, so no method can break them. */
    ghost predicate Wired() {
      && MatcherInBounds(matcher) && service.ttl == AdminCacheTtlMs
      && menu.prefix == prefix && menu.requireCallerAdmin == requireCallerAdmin
      && menu.allowlistSize == |allowlist| && menu.commands == commands
    }

    /** The bounds on the caches. */
    predicate Valid()
      reads throttle, menu
    {
      throttle.Valid() && menu.Valid()
    }

    /**
     * The allowlist normalised, the warning and cooldown windows from their
     * settings, empty caches, the menu over the registered commands, and the index
     * built from them. The program registers `Registry`; the list is a parameter
     * here so that other lists can be wired the same way.
     */
    constructor(store: Store, configAllowlist: seq<string>, prefix: string, requireCallerAdmin: bool,
                warnSetting: Option<int>, commandSetting: Option<int>, funSetting: Option<int>, matcher: LinkMatcher,
                commands: seq<CommandDef>)
      requires MatcherInBounds(matcher)
      ensures Wired() && Valid() && index == IndexOf(commands) && this.store == store && this.prefix == prefix && this.requireCallerAdmin == requireCallerAdmin
      ensures allowlist == AllowSet(configAllowlist) && this.matcher == matcher && this.commands == commands
      ensures fresh(service) && fresh(throttle) && fresh(menu)
      ensures service.cache == map[] && throttle.warned == map[] && throttle.stamps == map[] && menu.state == map[]
      ensures throttle.warnCooldown == Configured(warnSetting, DefaultWarnCooldownMs)
      ensures throttle.commandCooldown == Configured(commandSetting, DefaultCommandCooldownMs)
      ensures throttle.funCooldown == Configured(funSetting, DefaultFunCooldownMs)
    {
      var listed := AllowSet(configAllowlist);
      var built := BuildIndex(commands);
      this.store := store;
      allowlist := listed;
      this.prefix := prefix;
      this.requireCallerAdmin := requireCallerAdmin;
      this.matcher := matcher;
      service := new Service(AdminCacheTtlMs);
      throttle := new Throttle(warnSetting, commandSetting, funSetting);
      menu := new Manager(prefix, requireCallerAdmin, |listed|, commands);
      this.commands := commands;
      index := built;
    }

    /** The effects of the two enforcers on a message, from the state before it. */
    function Enforcement(env: Envelope, chat: string, sender: Option<string>, isAllowlisted: bool, bot: Option<string>,
                         net: Net, now: int, d0: StoreData, c0: map<string, CacheEntry>, w0: map<string, int>): seq<Action>
      requires MatcherInBounds(matcher)
    {
      if !(IsGroupJid(chat) && sender.Some?) then []
      else
        var seen := Seen(c0, service.ttl, chat, now, net.meta);
        var s := sender.value;
        if MutedAt(d0, chat, s, now) then
          DeleteStep(env.key, chat, bot, seen)
          + WarnStep(WarnAllowed(w0, CacheKey(chat, s, MuteRuleName), throttle.warnCooldown, now), chat, s, MuteWarning(JidMentionTag(s)))
        else
          var rule := Verdict(ModerationAt(AfterMuteRead(d0, chat, s, now), chat, now), isAllowlisted,
                              StatusOf(seen, s), env.message, matcher);
          RuleEffects(rule, env.key, chat, s, bot, seen, w0, throttle.warnCooldown, now)
    }

    /** Whether the sender of a message is allowlisted. */
    predicate Listed(env: Envelope, isGroup: bool) {
      Allowlisted(allowlist, SenderOf(env.key, isGroup), AltSenderOf(env.key, isGroup))
    }

    /** Where the handling of a message ends, from the message, the connection and the state before it. */
    function ExitOf(env: Envelope, net: Net, now: int, d0: StoreData, c0: map<string, CacheEntry>, s0: map<string, int>): (r: Exit)
      ensures r.Ignored? <==> ChatOf(env).None?
    {
      var chat := ChatOf(env);
      if chat.None? then Ignored
      else
        var c := chat.value;
        var isGroup := IsGroupJid(c);
        var sender := SenderOf(env.key, isGroup);
        if isGroup && sender.Some? && MutedAt(d0, c, sender.value, now) then MutedExit
        else CommandExit(env, c, isGroup, sender, Listed(env, isGroup), BotJid(net.userId, net.userJid), net, now, c0, s0)
    }

    /** Where the handling of a message that reached command parsing ends. */
    function CommandExit(env: Envelope, chat: string, isGroup: bool, sender: Option<string>, isAllowlisted: bool,
                         bot: Option<string>, net: Net, now: int, c0: map<string, CacheEntry>, s0: map<string, int>): (r: Exit)
      ensures !r.Ignored? && !r.MutedExit?
    {
      var cmd := ParseCommand(ExtractText(env.message).GetOr(""), prefix);
      if cmd.None? then NoCommand
      else if cmd.value.name !in index then UnknownExit
      else KnownExit(index[cmd.value.name], chat, isGroup, sender, isAllowlisted, bot, net, now, c0, s0)
    }

    /** Command parsing ends the same way over two caches that show the chat the same. */
    lemma CommandExitStable(env: Envelope, chat: string, isGroup: bool, sender: Option<string>, isAllowlisted: bool,
                            bot: Option<string>, net: Net, now: int, c: map<string, CacheEntry>, c0: map<string, CacheEntry>,
                            s0: map<string, int>)
      requires Seen(c, service.ttl, chat, now, net.meta) == Seen(c0, service.ttl, chat, now, net.meta)
      ensures CommandExit(env, chat, isGroup, sender, isAllowlisted, bot, net, now, c, s0)
           == CommandExit(env, chat, isGroup, sender, isAllowlisted, bot, net, now, c0, s0)
    {
    }

    /** The cooldown cache after a message that ran its command. */
    function StampsAfter(env: Envelope, def: CommandDef, now: int, s0: map<string, int>): map<string, int>
      requires ChatOf(env).Some?
    {
      var c := ChatOf(env).value;
      Bumped(s0, throttle.commandCooldown, throttle.funCooldown, c, SenderOf(env.key, IsGroupJid(c)), def.category == FunCategory, now)
    }

    /** A muted sender's message goes no further, whatever it says. */
    lemma MuteStops(env: Envelope, net: Net, now: int, d0: StoreData, c0: map<string, CacheEntry>, s0: map<string, int>)
      requires ChatOf(env).Some? && IsGroupJid(ChatOf(env).value)
      requires var s := SenderOf(env.key, true); s.Some? && MutedAt(d0, ChatOf(env).value, s.value, now)
      ensures ExitOf(env, net, now, d0, c0, s0) == MutedExit
    {
    }

    /**
     * Every registered command works in groups only: in a private chat a known
     * command is refused with the group-only reply before any other gate.
     */
    lemma PrivateChatsRefused(env: Envelope, net: Net, now: int, d0: StoreData, c0: map<string, CacheEntry>, s0: map<string, int>)
      requires commands == Registry && index == IndexOf(commands)
      requires ChatOf(env).Some? && IsUserJid(ChatOf(env).value)
      requires var cmd := ParseCommand(ExtractText(env.message).GetOr(""), prefix); cmd.Some? && cmd.value.name in index
      ensures ExitOf(env, net, now, d0, c0, s0) == Denied(GroupOnly)
    {
      var c := ChatOf(env).value;
      GroupAndUserDisjoint(c);
      var cmd := ParseCommand(ExtractText(env.message).GetOr(""), prefix);
      IndexFrom(Registry, cmd.value.name);
      RegistryGroupOnly();
      var def := index[cmd.value.name];
      assert def.groupOnly by {
        var i :| 0 <= i < |Registry| && Registry[i] == def;
      }
    }

    // ----- the stages ------------------------------------------------------------

    /** Both enforcers, in order: a message whose mute was enforced goes no further. */
    method Enforce(env: Envelope, chat: string, sender: Option<string>, isAllowlisted: bool, bot: Option<string>,
                   net: Net, now: int)
      returns (stop: bool, acts: seq<Action>)
      requires throttle.Valid() && MatcherInBounds(matcher) && chat != ""
      requires sender.Some? ==> Canonical(sender.value)
      modifies store, service, throttle
      ensures throttle.Valid() && throttle.stamps == old(throttle.stamps) && store.saved == old(store.saved)
      ensures stop == (IsGroupJid(chat) && sender.Some? && MutedAt(old(store.data), chat, sender.value, now))
      ensures acts == Enforcement(env, chat, sender, isAllowlisted, bot, net, now, old(store.data), old(service.cache), old(throttle.warned))
      ensures SameView(service.cache, old(service.cache), service.ttl, chat, now, net.meta)
      ensures !(IsGroupJid(chat) && sender.Some?) ==>
        store.data == old(store.data) && service.cache == old(service.cache) && throttle.warned == old(throttle.warned)
    {
      assert store as object != service && store as object != throttle && service as object != throttle;
      if !(IsGroupJid(chat) && sender.Some?) {
        return false, [];
      }
      var s := sender.value;
      assert s != "" by {
        assert Canonical(s) && IsUserJid(s);
      }
      var enforced, muteActs := EnforceMute(store, service, throttle, env, chat, s, bot, net, now);
      if enforced {
        return true, muteActs;
      }
      var rule, modActs := Moderate(store, service, throttle, env, chat, s, isAllowlisted, bot, matcher, net, now);
      return false, modActs;
    }

    /** The gates, with the admin lookups they need made through the cache. */
    method Gates(def: CommandDef, chat: string, isGroup: bool, isAllowlisted: bool, sender: Option<string>,
                 bot: Option<string>, net: Net, now: int)
      returns (denial: Option<Reply>)
      requires chat != ""
      modifies service
      ensures denial == GateDenial(def, isGroup, isAllowlisted, |allowlist|, requireCallerAdmin, sender, bot,
                                   Seen(old(service.cache), service.ttl, chat, now, net.meta))
      ensures SameView(service.cache, old(service.cache), service.ttl, chat, now, net.meta)
      ensures !(def.privileged && isAllowlisted && (isGroup || !def.groupOnly)) ==> service.cache == old(service.cache)
    {
      ghost var c0 := service.cache;
      ghost var seen := Seen(c0, service.ttl, chat, now, net.meta);
      if def.groupOnly && !isGroup {
        return Some(GroupOnly);
      }
      if !def.privileged {
        return None;
      }
      if !isAllowlisted {
        return Some(if |allowlist| == 0 then AllowlistUnset else NotAllowlisted);
      }
      if requireCallerAdmin {
        var check := service.GetAdminStatus(Some(chat), sender, now, net.meta);
        assert check == Status(seen, sender);
        if !check.ok {
          return Some(CannotVerifyAdmin);
        }
        if !check.isAdmin {
          return Some(NotGroupAdmin);
        }
      }
      if def.requiresBotAdmin {
        if !Present(bot) {
          return Some(CannotVerifyAdmin);
        }
        ViewStable(service.cache, c0, service.ttl, chat, now, net.meta);
        var check := service.GetAdminStatus(Some(chat), bot, now, net.meta);
        assert check == Status(seen, bot);
        if !check.ok {
          return Some(CannotVerifyAdmin);
        }
        if !check.isAdmin {
          return Some(BotNotAdmin);
        }
      }
      return None;
    }

    /** The cooldown check; a command that passes stamps its keys. */
    method Cooldown(chat: string, sender: Option<string>, isFun: bool, now: int) returns (denial: Option<Reply>)
      requires throttle.Valid()
      modifies throttle
      ensures throttle.Valid() && throttle.warned == old(throttle.warned)
      ensures denial == CooldownDenial(old(throttle.stamps), throttle.commandCooldown, throttle.funCooldown, chat, sender, isFun, now)
      ensures throttle.stamps == if denial.Some? then old(throttle.stamps)
                                 else Bumped(old(throttle.stamps), throttle.commandCooldown, throttle.funCooldown, chat, sender, isFun, now)
    {
      if !(sender.Some? && IsGroupJid(chat)) {
        return None;
      }
      var baseKey := BaseKey(chat, sender.value);
      var funKey := FunKey(chat, sender.value);
      var baseWait := CooldownRemaining(throttle.stamps, baseKey, throttle.commandCooldown, now);
      if baseWait > 0 {
        return Some(CommandCooldown(baseWait));
      }
      if isFun {
        var funWait := CooldownRemaining(throttle.stamps, funKey, throttle.funCooldown, now);
        if funWait > 0 {
          return Some(FunCooldown(funWait));
        }
      }
      if throttle.commandCooldown > 0 {
        throttle.BumpCooldown(baseKey, now);
      }
      if isFun && throttle.funCooldown > 0 {
        throttle.BumpCooldown(funKey, now);
      }
      return None;
    }

    /** A moderation command's handler: its reply is sent quoting the command. */
    method RunModeration(h: Handler, chat: string, cmd: Command, now: int) returns (reply: Reply)
      requires ModerationHandler(h)
      modifies store
      ensures h.RulesCmd? ==>
        reply == RulesText(ModerationAt(old(store.data), chat, now))
        && store.data == Touched(old(store.data), chat, now) && store.saved == old(store.saved)
      ensures h.AntiLinkCmd? || h.AntiImageCmd? || h.AntiStickerCmd? ==>
        var s := if h.AntiLinkCmd? then ModerationCommands.LinkSwitch
                 else if h.AntiImageCmd? then ModerationCommands.ImageSwitch else ModerationCommands.StickerSwitch;
        var e := ParseOnOff(ModerationCommands.Arg(cmd.args, 0));
        && (e.None? ==> reply == Usage(ModerationCommands.SwitchCommand(s))
                        && store.data == old(store.data) && store.saved == old(store.saved))
        && (e.Some? ==>
              && reply == ModerationCommands.SwitchReply(ModerationCommands.SwitchTopic(s), chat, e.value)
              && store.data == WithSwitch(old(store.data), chat, ModerationCommands.SwitchFlag(s), e.value, now)
              && store.saved == if IsGroupJid(chat) then Some(store.data) else old(store.saved))
      ensures h.FilterCmd? ==>
        var sub := ModerationCommands.FilterSubOf(ModerationCommands.SubOf(cmd.args));
        var phrase := ModerationCommands.PhraseArg(cmd.args);
        && (sub == ModerationCommands.FilterUnknown ==>
              reply == Usage("filter") && store.data == old(store.data) && store.saved == old(store.saved))
        && (sub == ModerationCommands.FilterOn || sub == ModerationCommands.FilterOff ==>
              && reply == ModerationCommands.SwitchReply(FilterTopic, chat, sub == ModerationCommands.FilterOn)
              && store.data == WithSwitch(old(store.data), chat, FilterEnabled, sub == ModerationCommands.FilterOn, now)
              && store.saved == if IsGroupJid(chat) then Some(store.data) else old(store.saved))
        && (sub == ModerationCommands.FilterListing ==>
              var words := ModerationCommands.WordsAt(old(store.data), chat, now);
              && reply == (if words == [] then WordListEmpty else WordList(Text.Join(ModerationCommands.ListLines(words), "\n")))
              && store.data == Touched(old(store.data), chat, now) && store.saved == old(store.saved))
        && (sub == ModerationCommands.FilterAdding && phrase != "" && |phrase| <= ModerationCommands.MaxPhraseChars ==>
              var c := AddWordCount(old(store.data), chat, phrase, now);
              && reply == (if c.changed > 0 then PhraseAdded(c.total) else PhraseExists)
              && store.data == AddWordData(old(store.data), chat, phrase, now)
              && store.saved == if c.changed > 0 then Some(store.data) else old(store.saved))
        && (sub == ModerationCommands.FilterRemoving && phrase != "" ==>
              var c := RemoveWordCount(old(store.data), chat, phrase, now);
              && reply == (if c.changed > 0 then PhraseRemoved(c.total) else PhraseMissing)
              && store.data == RemoveWordData(old(store.data), chat, phrase, now)
              && store.saved == if IsGroupJid(chat) && NormalizeBannedWord(phrase).Some? then Some(store.data)
                                else old(store.saved))
        && (sub == ModerationCommands.FilterAdding && phrase == "" ==>
              reply == PhrasePrompt("add") && store.data == old(store.data) && store.saved == old(store.saved))
        && (sub == ModerationCommands.FilterAdding && phrase != "" && |phrase| > ModerationCommands.MaxPhraseChars ==>
              reply == PhraseTooLong && store.data == old(store.data) && store.saved == old(store.saved))
        && (sub == ModerationCommands.FilterRemoving && phrase == "" ==>
              reply == PhrasePrompt("remove") && store.data == old(store.data) && store.saved == old(store.saved))
      ensures h.ExemptCmd? ==>
        var kind := ModerationCommands.ExemptKind(ModerationCommands.SubOf(cmd.args));
        var e := ParseOnOff(ModerationCommands.Arg(cmd.args, 1));
        && (e.None? || kind.None? ==>
              reply == Usage("exempt") && store.data == old(store.data) && store.saved == old(store.saved))
        && (e.Some? && kind.Some? ==>
              && reply == (if IsGroupJid(chat) then ExemptSwitched(kind.value, e.value) else UpdateFailed(ExemptTopic))
              && store.data == WithSwitch(old(store.data), chat, if kind.value then ExemptAllowlisted else ExemptAdmins, e.value, now)
              && store.saved == if IsGroupJid(chat) then Some(store.data) else old(store.saved))
      ensures h.WelcomeCmd? ==>
        var sub := ModerationCommands.SubOf(cmd.args);
        var t := ModerationCommands.TemplateArg(cmd.rawArgs);
        && (sub == "" ==>
              && reply == ModerationCommands.StatusReply(WelcomeAt(old(store.data), chat, now))
              && store.data == AfterWelcomeRead(old(store.data), chat, now) && store.saved == old(store.saved))
        && (sub == "on" || sub == "off" ==>
              && reply == ModerationCommands.SwitchReply(WelcomeTopic, chat, sub == "on")
              && store.data == WithWelcomeEnabled(old(store.data), chat, sub == "on", now)
              && store.saved == if IsGroupJid(chat) then Some(store.data) else old(store.saved))
        && (sub == "set" && t == "" ==> reply == TemplatePrompt && store.data == old(store.data) && store.saved == old(store.saved))
        && (sub == "set" && |t| > MaxWelcomeTemplateChars ==>
              reply == TemplateTooLong && store.data == old(store.data) && store.saved == old(store.saved))
        && (sub == "set" && t != "" && |t| <= MaxWelcomeTemplateChars ==>
              && reply == (if IsGroupJid(chat) then TemplateUpdated else UpdateFailed(TemplateTopic))
              && store.data == WithTemplate(old(store.data), chat, t, now)
              && store.saved == if IsGroupJid(chat) then Some(store.data) else old(store.saved))
        && (sub !in ["", "on", "off", "set"] ==>
              reply == Usage("welcome") && store.data == old(store.data) && store.saved == old(store.saved))
    {
      if h.RulesCmd? {
        reply := ModerationCommands.RulesCommand(store, chat, now);
        return;
      }
      if h.AntiLinkCmd? || h.AntiImageCmd? || h.AntiStickerCmd? {
        var s := if h.AntiLinkCmd? then ModerationCommands.LinkSwitch
                 else if h.AntiImageCmd? then ModerationCommands.ImageSwitch else ModerationCommands.StickerSwitch;
        reply := ModerationCommands.SetRule(store, s, chat, cmd.args, now);
        return;
      }
      if h.FilterCmd? {
        reply := ModerationCommands.FilterCommand(store, chat, cmd.args, now);
        return;
      }
      if h.ExemptCmd? {
        reply := ModerationCommands.ExemptCommand(store, chat, cmd.args, now);
        return;
      }
      reply := ModerationCommands.WelcomeCommand(store, chat, cmd.args, cmd.rawArgs, now);
    }

    /** An admin command's handler, over the targets the message names. */
    method RunAdmin(h: Handler, chat: string, env: Envelope, cmd: Command, net: Net, now: int) returns (acts: seq<Action>)
      requires h.KickCmd? || h.BanCmd? || h.UnbanCmd? || h.MuteCmd? || h.UnmuteCmd? || h.PromoteCmd? || h.DemoteCmd?
      modifies store, service
      ensures !h.MuteCmd? ==> service.cache == old(service.cache)
      ensures h.KickCmd? || h.PromoteCmd? || h.DemoteCmd? ==> store.data == old(store.data) && store.saved == old(store.saved)
      ensures h.KickCmd? || h.PromoteCmd? || h.DemoteCmd? ==>
        var op := if h.KickCmd? then Remove else if h.PromoteCmd? then Promote else Demote;
        var t := AdminCommands.Resolved(net, TargetsOf(env.message, cmd.args).targets);
        && (t == [] ==> acts == [Quoted(chat, NoTargets(prefix + AdminCommands.UpdateExample(op)))])
        && (t != [] ==> acts == AdminCommands.Updates(chat, t, op)
                               + [Quoted(chat, AdminCommands.UpdateReport(op, AdminCommands.Accepted(t, net.updateFails),
                                                                          AdminCommands.Refused(t, net.updateFails)))])
      ensures h.BanCmd? ==>
        var t := AdminCommands.Resolved(net, TargetsOf(env.message, cmd.args).targets);
        && (t == [] ==> acts == [Quoted(chat, NoTargets(prefix + AdminCommands.BanExample))]
                        && store.data == old(store.data) && store.saved == old(store.saved))
        && (t != [] ==>
              var ok := AdminCommands.Accepted(t, net.updateFails);
              var added := if |ok| > 0 then AdminCommands.BanCount(old(store.data), chat, ok, now) else 0;
              && acts == AdminCommands.Updates(chat, t, Remove) + [Quoted(chat, AdminCommands.BanReply(ok, AdminCommands.Refused(t, net.updateFails), added))]
              && store.data == (if |ok| > 0 then AdminCommands.BanData(old(store.data), chat, ok, now) else old(store.data))
              && store.saved == (if |ok| > 0 && IsGroupJid(chat) then Some(store.data) else old(store.saved)))
      ensures h.UnbanCmd? ==>
        var t := AdminCommands.Resolved(net, TargetsOf(env.message, cmd.args).targets);
        var quoted := TargetsOf(env.message, cmd.args).source != Some(FromNumbers);
        var pre := AdminCommands.UnbanDeletes(chat, env.key, TargetsOf(env.message, cmd.args).source);
        && (t == [] ==> acts == pre + [Send(chat, NoTargets(prefix + AdminCommands.UnbanExample), quoted, [])]
                        && store.data == old(store.data) && store.saved == old(store.saved))
        && (t != [] ==> acts == pre + [Send(chat, AdminCommands.UnbanReply(AdminCommands.UnbanCount(old(store.data), chat, t, now)), quoted, [])]
                        && store.data == AdminCommands.UnbanData(old(store.data), chat, t, now)
                        && store.saved == (if IsGroupJid(chat) then Some(store.data) else old(store.saved)))
      ensures h.MuteCmd? ==>
        var t := AdminCommands.Resolved(net, TargetsOf(env.message, cmd.args).targets);
        var d := AdminCommands.FirstSome(AdminCommands.DurationsOf(cmd.args));
        && (t == [] ==> acts == [Quoted(chat, NoTargets(prefix + AdminCommands.MuteExample))])
        && (t != [] && d.Some? && d.value.tooLarge ==> acts == [Quoted(chat, DurationTooLarge)])
        && (t == [] || (d.Some? && d.value.tooLarge) ==>
              store.data == old(store.data) && store.saved == old(store.saved) && service.cache == old(service.cache))
      ensures h.MuteCmd? ==>
        var t := AdminCommands.Resolved(net, TargetsOf(env.message, cmd.args).targets);
        var d := AdminCommands.FirstSome(AdminCommands.DurationsOf(cmd.args));
        var until := AdminCommands.Until(d, now);
        var bot := AdminCommands.BotOf(net);
        t != [] && (d.None? || !d.value.tooLarge) ==>
          && store.data == AdminCommands.MuteData(old(store.data), chat, t, until, now)
          && store.saved == (if AdminCommands.MuteWrites(old(store.data), chat, t, until, now) then Some(store.data) else old(store.saved))
          && service.cache == (if bot.Some? then CacheFor(old(service.cache), service.ttl, Some(chat), bot, now, net.meta)
                               else old(service.cache))
          && var note := if bot.Some? then AdminCommands.BotNote(StatusFor(old(service.cache), service.ttl, Some(chat), bot, now, net.meta)) else [];
             acts == [Quoted(chat, Report(AdminCommands.MuteLines(|t|, d, AdminCommands.MuteCountOf(old(store.data), chat, t, until, now), note)))]
      ensures h.UnmuteCmd? ==>
        var t := AdminCommands.Resolved(net, TargetsOf(env.message, cmd.args).targets);
        && (t == [] ==> acts == [Quoted(chat, NoTargets(prefix + AdminCommands.UnmuteExample))]
                        && store.data == old(store.data) && store.saved == old(store.saved))
        && (t != [] ==> var n := AdminCommands.UnmuteCount(old(store.data), chat, t, now);
                        && acts == [Quoted(chat, AdminCommands.UnmuteReply(n))]
                        && store.data == AdminCommands.UnmuteData(old(store.data), chat, t, now)
                        && store.saved == (if IsGroupJid(chat) && n > 0 then Some(store.data) else old(store.saved)))
    {
      var targets := TargetsOf(env.message, cmd.args);
      if h.KickCmd? || h.PromoteCmd? || h.DemoteCmd? {
        var op := if h.KickCmd? then Remove else if h.PromoteCmd? then Promote else Demote;
        acts := AdminCommands.UpdateCommand(op, chat, targets.targets, prefix, net);
      } else {
        acts := RunStoreAdmin(h, chat, env, cmd, targets, net, now);
      }
    }

    /** The admin handlers that read or write the store: ban, unban, mute and unmute. */
    method RunStoreAdmin(h: Handler, chat: string, env: Envelope, cmd: Command, targets: Targets, net: Net, now: int)
      returns (acts: seq<Action>)
      requires h.BanCmd? || h.UnbanCmd? || h.MuteCmd? || h.UnmuteCmd?
      modifies store, service
      ensures !h.MuteCmd? ==> service.cache == old(service.cache)
      ensures h.BanCmd? ==>
        var t := AdminCommands.Resolved(net, targets.targets);
        && (t == [] ==> acts == [Quoted(chat, NoTargets(prefix + AdminCommands.BanExample))]
                        && store.data == old(store.data) && store.saved == old(store.saved))
        && (t != [] ==>
              var ok := AdminCommands.Accepted(t, net.updateFails);
              var added := if |ok| > 0 then AdminCommands.BanCount(old(store.data), chat, ok, now) else 0;
              && acts == AdminCommands.Updates(chat, t, Remove) + [Quoted(chat, AdminCommands.BanReply(ok, AdminCommands.Refused(t, net.updateFails), added))]
              && store.data == (if |ok| > 0 then AdminCommands.BanData(old(store.data), chat, ok, now) else old(store.data))
              && store.saved == (if |ok| > 0 && IsGroupJid(chat) then Some(store.data) else old(store.saved)))
      ensures h.UnbanCmd? ==>
        var t := AdminCommands.Resolved(net, targets.targets);
        var quoted := targets.source != Some(FromNumbers);
        var pre := AdminCommands.UnbanDeletes(chat, env.key, targets.source);
        && (t == [] ==> acts == pre + [Send(chat, NoTargets(prefix + AdminCommands.UnbanExample), quoted, [])]
                        && store.data == old(store.data) && store.saved == old(store.saved))
        && (t != [] ==> acts == pre + [Send(chat, AdminCommands.UnbanReply(AdminCommands.UnbanCount(old(store.data), chat, t, now)), quoted, [])]
                        && store.data == AdminCommands.UnbanData(old(store.data), chat, t, now)
                        && store.saved == (if IsGroupJid(chat) then Some(store.data) else old(store.saved)))
      ensures h.MuteCmd? ==>
        var t := AdminCommands.Resolved(net, targets.targets);
        var d := AdminCommands.FirstSome(AdminCommands.DurationsOf(cmd.args));
        && (t == [] ==> acts == [Quoted(chat, NoTargets(prefix + AdminCommands.MuteExample))])
        && (t != [] && d.Some? && d.value.tooLarge ==> acts == [Quoted(chat, DurationTooLarge)])
        && (t == [] || (d.Some? && d.value.tooLarge) ==>
              store.data == old(store.data) && store.saved == old(store.saved) && service.cache == old(service.cache))
      ensures h.MuteCmd? ==>
        var t := AdminCommands.Resolved(net, targets.targets);
        var d := AdminCommands.FirstSome(AdminCommands.DurationsOf(cmd.args));
        var until := AdminCommands.Until(d, now);
        var bot := AdminCommands.BotOf(net);
        t != [] && (d.None? || !d.value.tooLarge) ==>
          && store.data == AdminCommands.MuteData(old(store.data), chat, t, until, now)
          && store.saved == (if AdminCommands.MuteWrites(old(store.data), chat, t, until, now) then Some(store.data) else old(store.saved))
          && service.cache == (if bot.Some? then CacheFor(old(service.cache), service.ttl, Some(chat), bot, now, net.meta)
                               else old(service.cache))
          && var note := if bot.Some? then AdminCommands.BotNote(StatusFor(old(service.cache), service.ttl, Some(chat), bot, now, net.meta)) else [];
             acts == [Quoted(chat, Report(AdminCommands.MuteLines(|t|, d, AdminCommands.MuteCountOf(old(store.data), chat, t, until, now), note)))]
      ensures h.UnmuteCmd? ==>
        var t := AdminCommands.Resolved(net, targets.targets);
        && (t == [] ==> acts == [Quoted(chat, NoTargets(prefix + AdminCommands.UnmuteExample))]
                        && store.data == old(store.data) && store.saved == old(store.saved))
        && (t != [] ==> var n := AdminCommands.UnmuteCount(old(store.data), chat, t, now);
                        && acts == [Quoted(chat, AdminCommands.UnmuteReply(n))]
                        && store.data == AdminCommands.UnmuteData(old(store.data), chat, t, now)
                        && store.saved == (if IsGroupJid(chat) && n > 0 then Some(store.data) else old(store.saved)))
    {
      assert store as object != service;
      if h.BanCmd? {
        acts := AdminCommands.BanCommand(store, chat, targets.targets, prefix, net, now);
      } else if h.UnbanCmd? {
        acts := AdminCommands.UnbanCommand(store, chat, env.key, targets.source, targets.targets, prefix, net, now);
      } else if h.MuteCmd? {
        acts := AdminCommands.MuteCommand(store, service, chat, targets.targets, cmd.args, prefix, net, now);
      } else {
        acts := AdminCommands.UnmuteCommand(store, chat, targets.targets, prefix, net, now);
      }
    }

    /**
     * `def.handler(ctx)`: the handler of the command, in the chat of the message;
     * it throws exactly when its reply could not be sent (the menu command also
     * when its interactive page and the text fallback both fail).
     */
    method Dispatch(def: CommandDef, chat: string, env: Envelope, cmd: Command, isAllowlisted: bool, net: Net, now: int)
      returns (acts: seq<Action>, threw: bool)
      requires menu.Valid()
      modifies store, service, menu
      ensures menu.Valid()
      ensures threw ==> !net.sendOk
      ensures !def.handler.MenuCmd? ==> threw == !net.sendOk && menu.state == old(menu.state)
      ensures !def.handler.MuteCmd? ==> service.cache == old(service.cache)
      ensures FunHandler(def.handler) ==>
        acts == [Quoted(chat, FunReply(def.name))] && store.data == old(store.data) && store.saved == old(store.saved)
      ensures def.handler.HelpCmd? ==>
        acts == [Quoted(chat, HelpText(Help.HelpBody(menu.prefix, menu.commands)))] && store.data == old(store.data) && store.saved == old(store.saved)
      ensures ModerationHandler(def.handler) ==> |acts| == 1 && acts[0].Send? && acts == [Quoted(chat, acts[0].reply)]
      ensures def.handler.KickCmd? || def.handler.PromoteCmd? || def.handler.DemoteCmd? ==>
        store.data == old(store.data) && store.saved == old(store.saved)
    {
      assert store as object != service && store as object != menu && service as object != menu;
      var h := def.handler;
      if h.HelpCmd? {
        acts, threw := Core.HelpCommand(menu, chat, net);
      } else if h.MenuCmd? {
        acts, threw := Core.MenuCommand(menu, store, chat, cmd.args, isAllowlisted, net, now);
      } else if FunHandler(h) {
        acts, threw := [Quoted(chat, FunReply(def.name))], !net.sendOk;
      } else {
        acts := RunStateful(h, chat, env, cmd, net, now);
        threw := !net.sendOk;
      }
    }

    /** The moderation and admin handlers: a moderation reply is one text quoting the command. */
    method RunStateful(h: Handler, chat: string, env: Envelope, cmd: Command, net: Net, now: int) returns (acts: seq<Action>)
      requires ModerationHandler(h) || h.KickCmd? || h.BanCmd? || h.UnbanCmd? || h.MuteCmd? || h.UnmuteCmd? || h.PromoteCmd? || h.DemoteCmd?
      modifies store, service
      ensures !h.MuteCmd? ==> service.cache == old(service.cache)
      ensures ModerationHandler(h) ==> |acts| == 1 && acts[0].Send? && acts == [Quoted(chat, acts[0].reply)]
      ensures h.KickCmd? || h.PromoteCmd? || h.DemoteCmd? ==> store.data == old(store.data) && store.saved == old(store.saved)
    {
      if ModerationHandler(h) {
        acts := ModerationActs(h, chat, cmd, now);
      } else {
        acts := RunAdmin(h, chat, env, cmd, net, now);
      }
    }

    /** A moderation handler's reply, quoting the command. */
    method ModerationActs(h: Handler, chat: string, cmd: Command, now: int) returns (acts: seq<Action>)
      requires ModerationHandler(h)
      modifies store
      ensures |acts| == 1 && acts[0].Send? && acts == [Quoted(chat, acts[0].reply)]
    {
      var reply := RunModeration(h, chat, cmd, now);
      acts := [Quoted(chat, reply)];
    }

    // ----- handle ----------------------------------------------------------------

    /** `maybeHandleMenuNavigation` for a message without a command: at most one page is sent. */
    method Navigation(env: Envelope, chat: string, isAllowlisted: bool, net: Net, now: int) returns (acts: seq<Action>)
      requires menu.Valid()
      modifies store, menu
      ensures menu.Valid() && store.saved == old(store.saved) && |acts| <= 1
    {
      assert store as object != menu;
      var handled, threw;
      handled, acts, threw := menu.Navigate(store, chat, ExtractText(env.message), GetReplyStanzaId(env.message), isAllowlisted, net, now);
    }

    /** Where the handling of a known command ends. */
    function KnownExit(def: CommandDef, chat: string, isGroup: bool, sender: Option<string>, isAllowlisted: bool,
                       bot: Option<string>, net: Net, now: int, c0: map<string, CacheEntry>, s0: map<string, int>): (r: Exit)
      ensures r.Denied? || r.Cooled? || r.Ran?
      ensures r.Ran? ==> r.def == def
    {
      var gate := GateDenial(def, isGroup, isAllowlisted, |allowlist|, requireCallerAdmin, sender, bot,
                             Seen(c0, service.ttl, chat, now, net.meta));
      if gate.Some? then Denied(gate.value)
      else
        var wait := CooldownDenial(s0, throttle.commandCooldown, throttle.funCooldown, chat, sender, def.category == FunCategory, now);
        if wait.Some? then Cooled(wait.value) else Ran(def)
    }

    /**
     * A known command: the gates, then the cooldowns, then the handler, whose
     * failure is answered with the failure reply. `threw` says whether the
     * handler failed.
     */
    method RunKnown(def: CommandDef, chat: string, env: Envelope, cmd: Command, isGroup: bool, sender: Option<string>,
                    isAllowlisted: bool, bot: Option<string>, net: Net, now: int)
      returns (acts: seq<Action>, ghost exit: Exit, ghost threw: bool)
      requires Valid() && chat != ""
      modifies store, service, throttle, menu
      ensures Valid() && throttle.warned == old(throttle.warned)
      ensures exit == KnownExit(def, chat, isGroup, sender, isAllowlisted, bot, net, now, old(service.cache), old(throttle.stamps))
      ensures exit.Ran? || SameView(service.cache, old(service.cache), service.ttl, chat, now, net.meta)
      ensures exit.Denied? || exit.Cooled? ==> acts == [Quoted(chat, exit.r)]
      ensures exit.Ran? && threw ==> !net.sendOk && |acts| > 0 && acts[|acts| - 1] == Quoted(chat, CommandFailed)
      ensures throttle.stamps == if exit.Ran? then Bumped(old(throttle.stamps), throttle.commandCooldown, throttle.funCooldown,
                                                         chat, sender, def.category == FunCategory, now)
                                 else old(throttle.stamps)
      ensures !exit.Ran? ==> store.saved == old(store.saved) && store.data == old(store.data)
      ensures !(exit.Ran? && def.handler.MenuCmd?) ==> menu.state == old(menu.state)
    {
      assert store as object != service && store as object != throttle && store as object != menu;
      assert service as object != throttle && service as object != menu && throttle as object != menu;
      exit := KnownExit(def, chat, isGroup, sender, isAllowlisted, bot, net, now, service.cache, throttle.stamps);
      threw := false;
      var denial := Gates(def, chat, isGroup, isAllowlisted, sender, bot, net, now);
      if denial.Some? {
        return [Quoted(chat, denial.value)], exit, false;
      }
      var wait := Cooldown(chat, sender, def.category == FunCategory, now);
      if wait.Some? {
        return [Quoted(chat, wait.value)], exit, false;
      }
      var failed;
      acts, failed := Dispatch(def, chat, env, cmd, isAllowlisted, net, now);
      if failed {
        acts := acts + [Quoted(chat, CommandFailed)];
      }
      threw := failed;
    }

    /**
     * Everything after the enforcers: parse; without a command a group message
     * goes to the menu navigation; an unknown name gets the unknown-command
     * reply; a known one is `RunKnown`'s.
     */
    method RunCommand(env: Envelope, chat: string, isGroup: bool, sender: Option<string>, isAllowlisted: bool,
                      bot: Option<string>, net: Net, now: int)
      returns (acts: seq<Action>, ghost exit: Exit)
      requires Valid() && chat != ""
      modifies store, service, throttle, menu
      ensures Valid() && throttle.warned == old(throttle.warned)
      ensures exit == CommandExit(env, chat, isGroup, sender, isAllowlisted, bot, net, now, old(service.cache), old(throttle.stamps))
      ensures exit.NoCommand? ==> |acts| <= 1 && (!isGroup ==> acts == [])
      ensures exit.UnknownExit? ==> acts == [Quoted(chat, UnknownCommand(prefix))]
      ensures exit.Denied? || exit.Cooled? ==> acts == [Quoted(chat, exit.r)]
      ensures exit.Ran? ==> throttle.stamps == Bumped(old(throttle.stamps), throttle.commandCooldown, throttle.funCooldown,
                                                      chat, sender, exit.def.category == FunCategory, now)
      ensures !exit.Ran? ==> store.saved == old(store.saved) && throttle.stamps == old(throttle.stamps)
      ensures !exit.NoCommand? && !exit.Ran? ==> menu.state == old(menu.state)
    {
      exit := CommandExit(env, chat, isGroup, sender, isAllowlisted, bot, net, now, service.cache, throttle.stamps);
      acts := [];
      var cmd := ParseCommand(ExtractText(env.message).GetOr(""), prefix);
      if cmd.None? {
        if isGroup {
          acts := Navigation(env, chat, isAllowlisted, net, now);
        }
        return;
      }
      if cmd.value.name !in index {
        return [Quoted(chat, UnknownCommand(prefix))], exit;
      }
      var def := index[cmd.value.name];
      ghost var known: Exit, threw: bool;
      acts, known, threw := RunKnown(def, chat, env, cmd.value, isGroup, sender, isAllowlisted, bot, net, now);
    }

    /**
     * `handle`: a message out of scope changes nothing; otherwise the enforcers
     * run first (`pre` is what they did), and a message whose mute was enforced
     * goes no further; the rest is `RunCommand`'s.
     */
    method Handle(env: Envelope, net: Net, now: int)
      returns (acts: seq<Action>, ghost pre: seq<Action>, ghost exit: Exit)
      requires Wired() && Valid()
      modifies store, service, throttle, menu
      ensures Valid()
      ensures exit == ExitOf(env, net, now, old(store.data), old(service.cache), old(throttle.stamps))
      ensures exit.Ignored? ==>
        && acts == [] && store.data == old(store.data) && store.saved == old(store.saved)
        && service.cache == old(service.cache) && throttle.warned == old(throttle.warned)
        && throttle.stamps == old(throttle.stamps) && menu.state == old(menu.state)
      ensures !exit.Ignored? ==>
        var c := ChatOf(env).value;
        var isGroup := IsGroupJid(c);
        && pre == Enforcement(env, c, SenderOf(env.key, isGroup), Listed(env, isGroup), BotJid(net.userId, net.userJid), net, now,
                              old(store.data), old(service.cache), old(throttle.warned))
        && pre <= acts
      ensures exit.MutedExit? ==>
        acts == pre && throttle.stamps == old(throttle.stamps) && store.saved == old(store.saved) && menu.state == old(menu.state)
      ensures !exit.Ignored? ==>
        var c := ChatOf(env).value;
        var rest := acts[|pre|..];
        && (exit.NoCommand? ==> |rest| <= 1 && (!IsGroupJid(c) ==> rest == []))
        && (exit.UnknownExit? ==> rest == [Quoted(c, UnknownCommand(prefix))])
        && (exit.Denied? || exit.Cooled? ==> rest == [Quoted(c, exit.r)])
        && (exit.Ran? ==> throttle.stamps == Bumped(old(throttle.stamps), throttle.commandCooldown, throttle.funCooldown,
                                                    c, SenderOf(env.key, IsGroupJid(c)), exit.def.category == FunCategory, now))
        && (!exit.Ran? ==> store.saved == old(store.saved) && throttle.stamps == old(throttle.stamps))
    {
      assert store as object != service && store as object != throttle && store as object != menu;
      assert service as object != throttle && service as object != menu && throttle as object != menu;
      ghost var d0, c0, s0 := store.data, service.cache, throttle.stamps;
      exit := ExitOf(env, net, now, d0, c0, s0);
      acts, pre := [], [];
      var chat := ChatOf(env);
      if chat.None? {
        return;
      }
      var c := chat.value;
      var isGroup := IsGroupJid(c);
      var sender := SenderOf(env.key, isGroup);
      var listed := Allowlisted(allowlist, sender, AltSenderOf(env.key, isGroup));
      var bot := BotJid(net.userId, net.userJid);
      var stop, enforced := Enforce(env, c, sender, listed, bot, net, now);
      acts, pre := enforced, enforced;
      if stop {
        return;
      }
      ViewStable(service.cache, c0, service.ttl, c, now, net.meta);
      CommandExitStable(env, c, isGroup, sender, listed, bot, net, now, service.cache, c0, s0);
      ghost var cmdExit: Exit;
      var rest;
      rest, cmdExit := RunCommand(env, c, isGroup, sender, listed, bot, net, now);
      assert cmdExit == exit;
      acts := acts + rest;
      assert acts[|pre|..] == rest;
    }
  }
}
