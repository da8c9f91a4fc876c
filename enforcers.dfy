/**
 * The two enforcers that run on every group message before command parsing: the
 * mute enforcer, which deletes the messages of muted members, and the moderation
 * enforcer, which applies the group's link, phrase, image and sticker rules. The
 * decisions are pure functions of the store, the admin lookups and the message;
 * the methods carry out the effect sequence: at most one delete, then at most one
 * warning, gated by the warning cooldown.
 */
module Enforcers {
  import opened Wrappers
  import opened Text
  import opened Jid
  import opened Message
  import opened ContentRules
  import opened Normalize
  import opened Storage
  import opened GroupAdmin
  import opened Throttle
  import opened Actions

  // ----- deleting and warning ----------------------------------------------

  /**
   * The delete is attempted unless the bot's own lookup answered and says it is
   * not an admin; an unknown bot identity or a failed lookup still tries.
   */
  predicate CanDelete(bot: Option<string>, seen: Fetch) {
    !(Present(bot) && StatusOf(seen, bot.value).ok && !StatusOf(seen, bot.value).isAdmin)
  }

  /** The delete of the offending message, when it has a key and deleting is not ruled out. */
  function DeleteStep(key: Option<Key>, group: string, bot: Option<string>, seen: Fetch): seq<Action> {
    if key.Some? && CanDelete(bot, seen) then [Delete(group, key.value)] else []
  }

  /** The sender is mentioned when it has a mention tag. */
  function Mentions(sender: string): seq<string> {
    if JidMentionTag(sender) != "" then [sender] else []
  }

  /** The warning, when the cooldown lets it out; it quotes nothing. */
  function WarnStep(allowed: bool, group: string, sender: string, warning: Reply): seq<Action> {
    if allowed then [Send(group, warning, false, Mentions(sender))] else []
  }

  /** A delete step followed by a warning step: at most one of each, the delete first. */
  lemma EffectShape(key: Option<Key>, group: string, bot: Option<string>, seen: Fetch, allowed: bool, sender: string, warning: Reply)
    ensures var acts := DeleteStep(key, group, bot, seen) + WarnStep(allowed, group, sender, warning);
      && CountOf(acts, IsDelete) <= 1 && CountOf(acts, IsSend) <= 1 && |acts| <= 2
      && (|acts| == 2 ==> acts[0].Delete? && acts[1].Send?)
      && (forall i :: 0 <= i < |acts| ==> acts[i].Delete? || acts[i].Send?)
  {
    var d := DeleteStep(key, group, bot, seen);
    var w := WarnStep(allowed, group, sender, warning);
    assert d == [] || (|d| == 1 && d[0].Delete?);
    assert w == [] || (|w| == 1 && w[0].Send?);
    StepsShape(d, w);
  }

  /** At most one delete followed by at most one send. */
  lemma StepsShape(d: seq<Action>, w: seq<Action>)
    requires d == [] || (|d| == 1 && d[0].Delete?)
    requires w == [] || (|w| == 1 && w[0].Send?)
    ensures var acts := d + w;
      && CountOf(acts, IsDelete) <= 1 && CountOf(acts, IsSend) <= 1 && |acts| <= 2
      && (|acts| == 2 ==> acts[0].Delete? && acts[1].Send?)
      && (forall i :: 0 <= i < |acts| ==> acts[i].Delete? || acts[i].Send?)
  {
    CountOfAppend(d, w, IsDelete);
    CountOfAppend(d, w, IsSend);
    if d != [] {
      assert d[1..] == [];
    }
    if w != [] {
      assert w[1..] == [];
    }
  }

  /** The delete is skipped exactly when the bot is known, its status lookup succeeded and it is not an admin; a failed lookup still attempts it. */
  lemma DeleteGating(key: Key, group: string, bot: Option<string>, seen: Fetch)
    ensures DeleteStep(Some(key), group, bot, seen) == [] <==>
      Present(bot) && StatusOf(seen, bot.value).ok && !StatusOf(seen, bot.value).isAdmin
    ensures seen.Threw? ==> DeleteStep(Some(key), group, bot, seen) == [Delete(group, key)]
  {
  }

  /**
   * The delete step as both enforcers carry it out: the bot's own admin status is
   * looked up only when the message has a key and the bot's identity is known.
   */
  method TryDelete(service: Service, key: Option<Key>, group: string, bot: Option<string>, net: Net, now: int)
    returns (acts: seq<Action>)
    requires group != ""
    modifies service
    ensures acts == DeleteStep(key, group, bot, Seen(old(service.cache), service.ttl, group, now, net.meta))
    ensures service.cache == old(service.cache) || service.cache == AfterLookup(old(service.cache), service.ttl, group, now, net.meta)
  {
    acts := [];
    if key.Some? {
      var canDelete := true;
      if Present(bot) {
        var botCheck := service.GetAdminStatus(Some(group), bot, now, net.meta);
        if botCheck.ok && !botCheck.isAdmin {
          canDelete := false;
        }
      }
      if canDelete {
        acts := [Delete(group, key.value)];
      }
    }
  }

  /** The warning step: `shouldSendWarning` under the rule's key, then the send with the sender mentioned. */
  method Warn(throttle: Throttle, group: string, sender: string, ruleName: string, warning: Reply, now: int)
    returns (acts: seq<Action>)
    requires throttle.Valid()
    modifies throttle
    ensures throttle.Valid() && throttle.stamps == old(throttle.stamps)
    ensures acts == WarnStep(WarnAllowed(old(throttle.warned), CacheKey(group, sender, ruleName), throttle.warnCooldown, now), group, sender, warning)
    ensures throttle.warned == WarnedAfter(old(throttle.warned), CacheKey(group, sender, ruleName), throttle.warnCooldown, now)
  {
    var send := throttle.ShouldSendWarning(group, sender, ruleName, now);
    acts := [];
    if send {
      var mentions := if JidMentionTag(sender) != "" then [sender] else [];
      acts := [Send(group, warning, false, mentions)];
    }
  }

  // ----- the mute enforcer ---------------------------------------------------

  /** Whether `getMute` finds the user muted at `now`. */
  predicate MutedAt(d: StoreData, gid: string, userJid: string, now: int) {
    IsGroupJid(gid) && NormalizeUserJid(userJid).Some?
    && MuteStatusOf(MuteOf(GroupAt(d, gid, now).mutes, NormalizeUserJid(userJid).value), now).muted
  }

  /** The document after `getMute` read the user's mute at `now`: the group normalised, an ended mute deleted. */
  function AfterMuteRead(d: StoreData, gid: string, userJid: string, now: int): StoreData {
    if !IsGroupJid(gid) || NormalizeUserJid(userJid).None? then Touched(d, gid, now)
    else
      var u := NormalizeUserJid(userJid).value;
      var g := GroupAt(d, gid, now);
      PutGroup(d, gid, if Ended(MuteOf(g.mutes, u), now) then g.(mutes := DeleteMute(g.mutes, u)) else g)
  }

  /** A member muted without an end stays muted whatever the time. */
  lemma IndefiniteMuteHolds(d: StoreData, gid: string, userJid: string, now: int)
    requires IsGroupJid(gid) && NormalizeUserJid(userJid).Some?
    requires MuteOf(GroupAt(d, gid, now).mutes, NormalizeUserJid(userJid).value) == Some(None)
    ensures MutedAt(d, gid, userJid, now)
  {
  }

  /** A timed mute holds exactly until its end. */
  lemma TimedMuteHolds(d: StoreData, gid: string, userJid: string, now: int, until: int)
    requires IsGroupJid(gid) && NormalizeUserJid(userJid).Some?
    requires MuteOf(GroupAt(d, gid, now).mutes, NormalizeUserJid(userJid).value) == Some(Some(until))
    ensures MutedAt(d, gid, userJid, now) <==> now < until
  {
  }

  /**
   * `maybeEnforceMuteMessage`: a sender who is not muted gets `false` and no
   * effects; a muted sender's message is deleted unless the bot is known not to be
   * an admin, a warning follows when the `mute` cooldown lets it out, and the
   * result is `true` whatever the delete and the warning did.
   */
  method EnforceMute(store: Store, service: Service, throttle: Throttle, env: Envelope,
                     group: string, sender: string, bot: Option<string>, net: Net, now: int)
    returns (enforced: bool, acts: seq<Action>)
    requires throttle.Valid()
    modifies store, service, throttle
    ensures throttle.Valid() && throttle.stamps == old(throttle.stamps) && store.saved == old(store.saved)
    ensures group == "" || sender == "" ==>
      !enforced && acts == [] && store.data == old(store.data)
      && service.cache == old(service.cache) && throttle.warned == old(throttle.warned)
    ensures group != "" && sender != "" ==>
      && enforced == MutedAt(old(store.data), group, sender, now)
      && store.data == AfterMuteRead(old(store.data), group, sender, now)
    ensures group != "" && sender != "" && !enforced ==>
      acts == [] && service.cache == old(service.cache) && throttle.warned == old(throttle.warned)
    ensures group != "" && sender != "" && enforced ==>
      var key := CacheKey(group, sender, MuteRuleName);
      && acts == DeleteStep(env.key, group, bot, Seen(old(service.cache), service.ttl, group, now, net.meta))
                 + WarnStep(WarnAllowed(old(throttle.warned), key, throttle.warnCooldown, now), group, sender, MuteWarning(JidMentionTag(sender)))
      && throttle.warned == WarnedAfter(old(throttle.warned), key, throttle.warnCooldown, now)
      && (service.cache == old(service.cache) || service.cache == AfterLookup(old(service.cache), service.ttl, group, now, net.meta))
  {
    if group == "" || sender == "" {
      return false, [];
    }
    assert store as object != service && store as object != throttle && service as object != throttle;
    var state := store.GetMute(group, sender, now, now);
    if !state.muted {
      return false, [];
    }
    var deleted := TryDelete(service, env.key, group, bot, net, now);
    var warned := Warn(throttle, group, sender, MuteRuleName, MuteWarning(JidMentionTag(sender)), now);
    return true, deleted + warned;
  }

  // ----- the moderation enforcer -----------------------------------------------

  /** Whether rule `r`, looked at by itself, matches the message. */
  predicate Breaks(r: Rule, m: Moderation, words: seq<string>, media: Media, text: string, matcher: LinkMatcher)
    requires MatcherInBounds(matcher)
  {
    match r
    case AntiImage => m.antiImage && media.hasImage
    case AntiSticker => m.antiSticker && media.hasSticker
    case Filter => m.filterEnabled && |words| > 0 && Truthy(FindBannedWord(text, words))
    case AntiLink => m.antiLink && Truthy(FindFirstLink(text, matcher))
  }

  /** The link rule is not looked at while the phrase filter is on with phrases to look for. */
  predicate Considered(r: Rule, m: Moderation, words: seq<string>) {
    r == Rule.AntiLink ==> !(m.filterEnabled && |words| > 0)
  }

  /** The position of a rule in the order they are tried. */
  function Rank(r: Rule): nat {
    match r
    case AntiImage => 0
    case AntiSticker => 1
    case Filter => 2
    case AntiLink => 3
  }

  /** The rule chain of `maybeModerateMessage`: image, sticker, banned phrase, link. */
  function SelectRule(m: Moderation, words: seq<string>, media: Media, text: string, matcher: LinkMatcher): Option<Rule>
    requires MatcherInBounds(matcher)
  {
    if m.antiImage && media.hasImage then Some(Rule.AntiImage)
    else if m.antiSticker && media.hasSticker then Some(Rule.AntiSticker)
    else if m.filterEnabled && |words| > 0 then
      (if Truthy(FindBannedWord(text, words)) then Some(Rule.Filter) else None)
    else if m.antiLink then
      (if Truthy(FindFirstLink(text, matcher)) then Some(Rule.AntiLink) else None)
    else None
  }

  /**
   * First match: the rule chosen is one that matches and is looked at, and every
   * rule tried before it does not match; no rule is chosen exactly when each rule
   * that is looked at does not match.
   */
  lemma SelectRuleFirstMatch(m: Moderation, words: seq<string>, media: Media, text: string, matcher: LinkMatcher, r: Rule)
    requires MatcherInBounds(matcher)
    ensures SelectRule(m, words, media, text, matcher) == Some(r) <==>
      Breaks(r, m, words, media, text, matcher) && Considered(r, m, words)
      && forall q: Rule :: Rank(q) < Rank(r) ==> !Breaks(q, m, words, media, text, matcher)
    ensures SelectRule(m, words, media, text, matcher).None? <==>
      forall q: Rule :: Considered(q, m, words) ==> !Breaks(q, m, words, media, text, matcher)
  {
    SelectedRule(m, words, media, text, matcher, r);
    NoSelectedRule(m, words, media, text, matcher);
  }

  /** The first half of `SelectRuleFirstMatch`: the rule chosen. */
  lemma SelectedRule(m: Moderation, words: seq<string>, media: Media, text: string, matcher: LinkMatcher, r: Rule)
    requires MatcherInBounds(matcher)
    ensures SelectRule(m, words, media, text, matcher) == Some(r) <==>
      Breaks(r, m, words, media, text, matcher) && Considered(r, m, words)
      && forall q: Rule :: Rank(q) < Rank(r) ==> !Breaks(q, m, words, media, text, matcher)
  {
    var image := Breaks(Rule.AntiImage, m, words, media, text, matcher);
    var sticker := Breaks(Rule.AntiSticker, m, words, media, text, matcher);
    var filter := Breaks(Rule.Filter, m, words, media, text, matcher);
    var link := Breaks(Rule.AntiLink, m, words, media, text, matcher);
    var sel := SelectRule(m, words, media, text, matcher);
    var before := forall q: Rule :: Rank(q) < Rank(r) ==> !Breaks(q, m, words, media, text, matcher);
    match r
    case AntiImage =>
      assert sel == Some(r) <==> image;
    case AntiSticker =>
      assert before <==> !image;
      assert sel == Some(r) <==> !image && sticker;
    case Filter =>
      assert before <==> !image && !sticker;
      assert sel == Some(r) <==> !image && !sticker && filter;
    case AntiLink =>
      assert before <==> !image && !sticker && !filter;
      assert sel == Some(r) <==> !image && !sticker && !(m.filterEnabled && |words| > 0) && link;
  }

  /** The second half of `SelectRuleFirstMatch`: no rule chosen. */
  lemma NoSelectedRule(m: Moderation, words: seq<string>, media: Media, text: string, matcher: LinkMatcher)
    requires MatcherInBounds(matcher)
    ensures SelectRule(m, words, media, text, matcher).None? <==>
      forall q: Rule :: Considered(q, m, words) ==> !Breaks(q, m, words, media, text, matcher)
  {
    var image := Breaks(Rule.AntiImage, m, words, media, text, matcher);
    var sticker := Breaks(Rule.AntiSticker, m, words, media, text, matcher);
    var filter := Breaks(Rule.Filter, m, words, media, text, matcher);
    var link := Breaks(Rule.AntiLink, m, words, media, text, matcher);
    if SelectRule(m, words, media, text, matcher).None? {
      forall q: Rule | Considered(q, m, words) ensures !Breaks(q, m, words, media, text, matcher) {
      }
    }
  }

  /** No rule applies while all four switches are off. */
  predicate AnyEnabled(m: Moderation) {
    m.antiLink || m.filterEnabled || m.antiImage || m.antiSticker
  }

  /**
   * The sender is exempt: allowlisted while allowlisted senders are exempt, or,
   * while admins are exempt, an admin or not verifiable (the check fails open).
   */
  predicate Exempt(m: Moderation, isAllowlisted: bool, senderStatus: AdminStatus) {
    (m.exemptAllowlisted && isAllowlisted) || (m.exemptAdmins && (!senderStatus.ok || senderStatus.isAdmin))
  }

  /** The rule `maybeModerateMessage` enforces on a message, if any. */
  function Verdict(view: Option<ModerationView>, isAllowlisted: bool, senderStatus: AdminStatus,
                   message: Option<Msg>, matcher: LinkMatcher): Option<Rule>
    requires MatcherInBounds(matcher)
  {
    if view.None? || !AnyEnabled(view.value.moderation) || Exempt(view.value.moderation, isAllowlisted, senderStatus) then None
    else SelectRule(view.value.moderation, view.value.bannedWords, DetectMedia(message), ExtractText(message).GetOr(""), matcher)
  }

  /**
   * An enforced rule is switched on, and the sender is not exempt; a failed admin
   * lookup exempts the sender while admins are exempt.
   */
  lemma VerdictNeedsSwitch(view: Option<ModerationView>, isAllowlisted: bool, senderStatus: AdminStatus,
                           message: Option<Msg>, matcher: LinkMatcher)
    requires MatcherInBounds(matcher)
    ensures var r := Verdict(view, isAllowlisted, senderStatus, message, matcher);
      && (r.Some? ==> view.Some? && !Exempt(view.value.moderation, isAllowlisted, senderStatus))
      && (r == Some(Rule.AntiImage) ==> view.value.moderation.antiImage)
      && (r == Some(Rule.AntiSticker) ==> view.value.moderation.antiSticker)
      && (r == Some(Rule.Filter) ==> view.value.moderation.filterEnabled && |view.value.bannedWords| > 0)
      && (r == Some(Rule.AntiLink) ==> view.value.moderation.antiLink)
      && (view.Some? && view.value.moderation.exemptAdmins && !senderStatus.ok ==> r.None?)
  {
  }

  /**
   * The decision part of `maybeModerateMessage`: read the group's settings, stop
   * when no switch is on or the sender is exempt, then pick the rule.
   */
  method Decide(store: Store, service: Service, group: string, sender: string, isAllowlisted: bool,
                message: Option<Msg>, matcher: LinkMatcher, net: Net, now: int)
    returns (rule: Option<Rule>)
    requires MatcherInBounds(matcher) && group != "" && sender != ""
    modifies store, service
    ensures store.saved == old(store.saved) && store.data == Touched(old(store.data), group, now)
    ensures service.cache == old(service.cache) || service.cache == AfterLookup(old(service.cache), service.ttl, group, now, net.meta)
    ensures rule == Verdict(ModerationAt(old(store.data), group, now), isAllowlisted,
                            StatusOf(Seen(old(service.cache), service.ttl, group, now, net.meta), sender), message, matcher)
  {
    assert store as object != service;
    ghost var status := StatusOf(Seen(service.cache, service.ttl, group, now, net.meta), sender);
    var view := store.GetModeration(group, now);
    if view.None? {
      return None;
    }
    var m := view.value.moderation;
    if !AnyEnabled(m) {
      return None;
    }
    if m.exemptAllowlisted && isAllowlisted {
      assert Exempt(m, isAllowlisted, status);
      return None;
    }
    if m.exemptAdmins {
      var senderStatus := service.GetAdminStatus(Some(group), Some(sender), now, net.meta);
      assert senderStatus == status;
      if !senderStatus.ok || senderStatus.isAdmin {
        return None;
      }
    }
    assert !Exempt(m, isAllowlisted, status);
    rule := SelectRule(m, view.value.bannedWords, DetectMedia(message), ExtractText(message).GetOr(""), matcher);
  }

  /** The effects of enforcing `rule` (none when no rule applies): the delete step, then the rule's warning step. */
  function RuleEffects(rule: Option<Rule>, key: Option<Key>, group: string, sender: string, bot: Option<string>,
                       seen: Fetch, warned: map<string, int>, cooldown: int, now: int): seq<Action> {
    if rule.None? then []
    else DeleteStep(key, group, bot, seen)
         + WarnStep(WarnAllowed(warned, CacheKey(group, sender, RuleName(rule.value)), cooldown, now), group, sender,
                    RuleWarning(rule.value, JidMentionTag(sender)))
  }

  /** The warning cache after enforcing `rule`. */
  function RuleWarned(rule: Option<Rule>, group: string, sender: string, warned: map<string, int>, cooldown: int, now: int): map<string, int> {
    if rule.None? then warned else WarnedAfter(warned, CacheKey(group, sender, RuleName(rule.value)), cooldown, now)
  }

  /** Enforcing the chosen rule: the delete step, then the warning step under the rule's key. */
  method Enforce(service: Service, throttle: Throttle, key: Option<Key>, group: string, sender: string, bot: Option<string>,
                 rule: Option<Rule>, net: Net, now: int)
    returns (acts: seq<Action>)
    requires group != "" && throttle.Valid()
    modifies service, throttle
    ensures throttle.Valid() && throttle.stamps == old(throttle.stamps)
    ensures rule.None? ==> service.cache == old(service.cache)
    ensures service.cache == old(service.cache) || service.cache == AfterLookup(old(service.cache), service.ttl, group, now, net.meta)
    ensures acts == RuleEffects(rule, key, group, sender, bot, Seen(old(service.cache), service.ttl, group, now, net.meta),
                                old(throttle.warned), throttle.warnCooldown, now)
    ensures throttle.warned == RuleWarned(rule, group, sender, old(throttle.warned), throttle.warnCooldown, now)
  {
    if rule.None? {
      return [];
    }
    var deleted := TryDelete(service, key, group, bot, net, now);
    var warned := Warn(throttle, group, sender, RuleName(rule.value), RuleWarning(rule.value, JidMentionTag(sender)), now);
    acts := deleted + warned;
  }

  /**
   * `maybeModerateMessage`: the rule chosen by `Verdict`, with the sender's admin
   * status as the lookup sees it, is the one enforced; when one applies, the
   * delete step and then the warning step for that rule.
   */
  method Moderate(store: Store, service: Service, throttle: Throttle, env: Envelope, group: string, sender: string,
                  isAllowlisted: bool, bot: Option<string>, matcher: LinkMatcher, net: Net, now: int)
    returns (rule: Option<Rule>, acts: seq<Action>)
    requires MatcherInBounds(matcher) && throttle.Valid()
    modifies store, service, throttle
    ensures throttle.Valid() && throttle.stamps == old(throttle.stamps) && store.saved == old(store.saved)
    ensures group == "" || sender == "" ==>
      rule.None? && acts == [] && store.data == old(store.data) && service.cache == old(service.cache) && throttle.warned == old(throttle.warned)
    ensures group != "" && sender != "" ==>
      && store.data == Touched(old(store.data), group, now)
      && (service.cache == old(service.cache) || service.cache == AfterLookup(old(service.cache), service.ttl, group, now, net.meta))
      && rule == Verdict(ModerationAt(old(store.data), group, now), isAllowlisted,
                         StatusOf(Seen(old(service.cache), service.ttl, group, now, net.meta), sender), env.message, matcher)
    ensures acts == RuleEffects(rule, env.key, group, sender, bot, Seen(old(service.cache), service.ttl, group, now, net.meta),
                                old(throttle.warned), throttle.warnCooldown, now)
    ensures throttle.warned == RuleWarned(rule, group, sender, old(throttle.warned), throttle.warnCooldown, now)
  {
    if group == "" || sender == "" {
      return None, [];
    }
    assert store as object != service && store as object != throttle && service as object != throttle;
    ghost var cache0 := service.cache;
    rule := Decide(store, service, group, sender, isAllowlisted, env.message, matcher, net, now);
    LookupsAgree(cache0, service.ttl, group, now, net.meta);
    acts := Enforce(service, throttle, env.key, group, sender, bot, rule, net, now);
  }
}
