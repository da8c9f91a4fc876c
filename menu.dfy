/**
 * The menu manager: the last menu page shown in each group, remembered for a
 * short while so that a bare `0`–`4` reply navigates it, and the sends of the
 * root, admin, moderation and fun pages.
 */
module Menu {
  import opened Wrappers
  import opened Text
  import opened Storage
  import opened Actions
  import opened Commands
  import opened Help
  import opened Normalize

  /** A remembered menu answers navigation for this long after it was shown (inclusive). */
  const MenuTtlMs: int := 90000
  /** A reply to some other message still navigates while the menu is at most this old. */
  const StaleReplyMs: int := 15000
  /** The menu state is cleared when it holds more groups than this. */
  const MenuStateLimit: nat := 2000

  datatype Page = RootPage | AdminPage | ModerationPage | FunPage

  /** What is remembered per group: when, which page, and the id of the sent message. */
  datatype MenuState = MenuState(ts: int, page: Page, id: Option<string>)

  /** `sendResult?.key?.id`: the id of the sent message when it has a non-empty one. */
  function SentId(sent: Option<string>): (r: Option<string>)
    ensures r.Some? ==> r.value != ""
  {
    if sent.Some? && sent.value != "" then sent else None
  }

  /** `rememberMenu`: the group's entry replaced; the whole state cleared once it grows past the limit. */
  function Remembered(m: map<string, MenuState>, group: string, page: Page, sent: Option<string>, now: int)
    : (r: map<string, MenuState>)
    ensures |r| <= MenuStateLimit
    ensures forall g :: g in r && g != group ==> g in m && r[g] == m[g]
    ensures r == map[] || (group in r && r[group] == MenuState(now, page, SentId(sent)) && forall g :: g in m ==> g in r)
    ensures |m| < MenuStateLimit ==> group in r
  {
    var s := m[group := MenuState(now, page, SentId(sent))];
    assert |s| <= |m| + 1 by {
      if group in m {
        assert s.Keys == m.Keys;
      } else {
        assert s.Keys == m.Keys + {group};
      }
    }
    if |s| > MenuStateLimit then map[] else s
  }

  /** A token that navigates: exactly one of `0`–`4`. */
  predicate IsToken(t: string) {
    |t| == 1 && '0' <= t[0] <= '4'
  }

  /** What `maybeHandleMenuNavigation` does with a message. */
  datatype Step =
    | Pass           // not a navigation: returns false, changes nothing
    | Expire         // the group's menu is too old: forgotten, returns false
    | Show(t: char)  // the page for token `t` is sent

  /**
   * The navigation decision: no group, a text that is not a token, or no menu
   * pass; a menu older than the time to live expires; a reply to some other
   * message than the menu passes once the menu is older than `StaleReplyMs`.
   */
  function NavStep(state: map<string, MenuState>, group: string, text: Option<string>, replyId: Option<string>, now: int): Step {
    var token := Trim(text.GetOr(""));
    if group == "" || !IsToken(token) || group !in state then Pass
    else
      var s := state[group];
      if now - s.ts > MenuTtlMs then Expire
      else if s.id.Some? && s.id.value != "" && replyId.Some? && replyId != s.id && now - s.ts > StaleReplyMs then Pass
      else Show(token[0])
  }

  /** The page a token shows: `0` the root, `1` admin, `2` moderation, `3` fun; help (`4`) is remembered as the root. */
  function TokenPage(t: char): (p: Page)
    ensures t == '4' ==> p == RootPage
  {
    if t == '1' then AdminPage
    else if t == '2' then ModerationPage
    else if t == '3' then FunPage
    else RootPage
  }

  /** The root page, interactive or as text; it shows the allowlist size, the caller-admin switch and the caller's status. */
  function RootReply(interactive: bool, allowlistSize: nat, requireCallerAdmin: bool, isAllowlisted: bool): Reply {
    RootMenu(interactive, allowlistSize, requireCallerAdmin, isAllowlisted)
  }

  /** The moderation page: the group's switches and phrases, and its welcome setting. */
  function ModerationPageReply(d: StoreData, group: string, now: int): Reply {
    ModerationMenu(ModerationAt(d, group, now), WelcomeAt(Touched(d, group, now), group, now))
  }

  /** The document after the moderation page read the switches and then the welcome setting. */
  function AfterModerationPage(d: StoreData, group: string, now: int): StoreData {
    AfterWelcomeRead(Touched(d, group, now), group, now)
  }

  /**
   * The sends of the root page: the interactive list first when it is preferred,
   * then the text page when there was no interactive one or it failed.
   */
  function RootSends(group: string, preferInteractive: bool, allowlistSize: nat, requireCallerAdmin: bool, isAllowlisted: bool, net: Net)
    : seq<Action>
  {
    var text := [Quoted(group, RootReply(false, allowlistSize, requireCallerAdmin, isAllowlisted))];
    if preferInteractive then
      [Quoted(group, RootReply(true, allowlistSize, requireCallerAdmin, isAllowlisted))] + (if net.interactiveOk then [] else text)
    else text
  }

  /** Whether showing the root page ends in an exception: the text page was needed and its send failed. */
  predicate RootThrows(preferInteractive: bool, net: Net) {
    !(preferInteractive && net.interactiveOk) && !net.sendOk
  }

  /** The root page is sent at most twice, and the text page is sent exactly when no interactive list went through. */
  lemma RootFallback(group: string, preferInteractive: bool, n: nat, admin: bool, listed: bool, net: Net)
    ensures var acts := RootSends(group, preferInteractive, n, admin, listed, net);
      && 1 <= |acts| <= 2
      && (Quoted(group, RootReply(false, n, admin, listed)) in acts <==> !(preferInteractive && net.interactiveOk))
      && acts[|acts| - 1].Send?
  {
  }

  class Manager {
    /** `menuState`: the last page shown per group. */
    var state: map<string, MenuState>
    const prefix: string
    const requireCallerAdmin: bool
    const allowlistSize: nat
    /** The command list the help page is rendered from. */
    const commands: seq<CommandDef>

    predicate Valid()
      reads this
    {
      |state| <= MenuStateLimit
    }

    constructor(prefix: string, requireCallerAdmin: bool, allowlistSize: nat, commands: seq<CommandDef>)
      ensures this.prefix == prefix && this.requireCallerAdmin == requireCallerAdmin
      ensures this.allowlistSize == allowlistSize && this.commands == commands
      ensures state == map[] && Valid()
    {
      this.prefix := prefix;
      this.requireCallerAdmin := requireCallerAdmin;
      this.allowlistSize := allowlistSize;
      this.commands := commands;
      state := map[];
    }

    /** `rememberMenu`. */
    method Remember(group: string, page: Page, sent: Option<string>, now: int)
      requires Valid()
      modifies this
      ensures Valid() && state == Remembered(old(state), group, page, sent, now)
    {
      state := state[group := MenuState(now, page, SentId(sent))];
      if |state| > MenuStateLimit {
        state := map[];
      }
    }

    /** A page sent as text, remembered once the send went through; a failed send throws before anything is remembered. */
    method SendPage(group: string, page: Page, reply: Reply, net: Net, now: int) returns (acts: seq<Action>, threw: bool)
      requires Valid()
      modifies this
      ensures Valid()
      ensures acts == [Quoted(group, reply)] && threw == !net.sendOk
      ensures state == if net.sendOk then Remembered(old(state), group, page, net.sentId, now) else old(state)
    {
      acts := [Quoted(group, reply)];
      if !net.sendOk {
        return acts, true;
      }
      Remember(group, page, net.sentId, now);
      threw := false;
    }

    /**
     * `sendMenuRoot`: the interactive list when it is preferred; when it is not, or
     * its send fails, the text page. Either way the page that went out is
     * remembered as the root.
     */
    method SendRoot(group: string, isAllowlisted: bool, preferInteractive: bool, net: Net, now: int)
      returns (acts: seq<Action>, threw: bool)
      requires Valid()
      modifies this
      ensures Valid()
      ensures acts == RootSends(group, preferInteractive, allowlistSize, requireCallerAdmin, isAllowlisted, net)
      ensures threw == RootThrows(preferInteractive, net)
      ensures state == if threw then old(state) else Remembered(old(state), group, RootPage, net.sentId, now)
    {
      acts := [];
      if preferInteractive {
        acts := [Quoted(group, RootReply(true, allowlistSize, requireCallerAdmin, isAllowlisted))];
        if net.interactiveOk {
          Remember(group, RootPage, net.sentId, now);
          return acts, false;
        }
      }
      var more;
      more, threw := SendPage(group, RootPage, RootReply(false, allowlistSize, requireCallerAdmin, isAllowlisted), net, now);
      acts := acts + more;
    }

    /** `sendMenuModeration`: the page is made from the group's switches, then its welcome setting. */
    method SendModeration(store: Store, group: string, net: Net, now: int) returns (acts: seq<Action>, threw: bool)
      requires Valid()
      modifies this, store
      ensures Valid() && store.saved == old(store.saved)
      ensures store.data == AfterModerationPage(old(store.data), group, now)
      ensures acts == [Quoted(group, ModerationPageReply(old(store.data), group, now))] && threw == !net.sendOk
      ensures state == if net.sendOk then Remembered(old(state), group, ModerationPage, net.sentId, now) else old(state)
    {
      assert store as object != this;
      var m := store.GetModeration(group, now);
      var w := store.GetWelcome(group, now);
      acts, threw := SendPage(group, ModerationPage, ModerationMenu(m, w), net, now);
    }

    /** The page for a navigation token, as the message goes out. */
    function PageReply(t: char, d: StoreData, group: string, isAllowlisted: bool, now: int): Reply
      reads this
    {
      if t == '1' then AdminMenu
      else if t == '2' then ModerationPageReply(d, group, now)
      else if t == '3' then FunMenu
      else if t == '0' then RootReply(false, allowlistSize, requireCallerAdmin, isAllowlisted)
      else HelpText(HelpBody(prefix, commands))
    }

    /**
     * `maybeHandleMenuNavigation`: when `NavStep` shows a page, that page is
     * sent quoting the message and remembered (help as the root); an expired menu
     * is forgotten. `handled` is the function's `true` result; a failed send
     * throws it away instead.
     */
    method Navigate(store: Store, group: string, text: Option<string>, replyId: Option<string>, isAllowlisted: bool,
                    net: Net, now: int)
      returns (handled: bool, acts: seq<Action>, threw: bool)
      requires Valid()
      modifies this, store
      ensures Valid() && store.saved == old(store.saved)
      ensures var step := NavStep(old(state), group, text, replyId, now);
        && (step.Pass? ==> !handled && !threw && acts == [] && state == old(state))
        && (step.Expire? ==> !handled && !threw && acts == [] && state == old(state) - {group})
        && (step.Show? ==>
              && handled == net.sendOk && threw == !net.sendOk
              && acts == [Quoted(group, PageReply(step.t, old(store.data), group, isAllowlisted, now))]
              && state == if net.sendOk then Remembered(old(state), group, TokenPage(step.t), net.sentId, now) else old(state))
        && (step.Show? && step.t == '2' ==> store.data == AfterModerationPage(old(store.data), group, now))
        && (!(step.Show? && step.t == '2') ==> store.data == old(store.data))
    {
      assert store as object != this;
      ghost var step := NavStep(state, group, text, replyId, now);
      handled, acts, threw := false, [], false;
      if group == "" {
        return;
      }
      var token := Trim(text.GetOr(""));
      if !IsToken(token) {
        return;
      }
      if group !in state {
        return;
      }
      var s := state[group];
      if now - s.ts > MenuTtlMs {
        state := state - {group};
        return;
      }
      if s.id.Some? && s.id.value != "" && replyId.Some? && replyId != s.id && now - s.ts > StaleReplyMs {
        return;
      }
      assert step == Show(token[0]);
      acts, threw := ShowPage(store, group, token[0], isAllowlisted, net, now);
      handled := !threw;
    }

    /** The send for a navigation token: the page quoting the message, remembered (help as the root). */
    method ShowPage(store: Store, group: string, t: char, isAllowlisted: bool, net: Net, now: int)
      returns (acts: seq<Action>, threw: bool)
      requires Valid()
      modifies this, store
      ensures Valid() && store.saved == old(store.saved)
      ensures acts == [Quoted(group, PageReply(t, old(store.data), group, isAllowlisted, now))] && threw == !net.sendOk
      ensures state == if net.sendOk then Remembered(old(state), group, TokenPage(t), net.sentId, now) else old(state)
      ensures store.data == if t == '2' then AfterModerationPage(old(store.data), group, now) else old(store.data)
    {
      assert store as object != this;
      if t == '0' {
        acts, threw := SendRoot(group, isAllowlisted, false, net, now);
      } else if t == '1' {
        acts, threw := SendPage(group, AdminPage, AdminMenu, net, now);
      } else if t == '2' {
        acts, threw := SendModeration(store, group, net, now);
      } else if t == '3' {
        acts, threw := SendPage(group, FunPage, FunMenu, net, now);
      } else {
        var body := RenderHelp(prefix, commands);
        acts, threw := SendPage(group, RootPage, HelpText(body), net, now);
      }
    }
  }

  // ----- the navigation rules -------------------------------------------------

  /** A menu exactly `MenuTtlMs` old still navigates; one a millisecond older has expired. */
  lemma TtlInclusive(state: map<string, MenuState>, group: string, text: Option<string>, now: int)
    requires group != "" && group in state && IsToken(Trim(text.GetOr("")))
    ensures now - state[group].ts == MenuTtlMs ==> NavStep(state, group, text, None, now) == Show(Trim(text.GetOr(""))[0])
    ensures now - state[group].ts == MenuTtlMs + 1 ==> NavStep(state, group, text, None, now) == Expire
  {
  }

  /**
   * A reply to another message than the remembered menu is ignored exactly when
   * the menu is older than `StaleReplyMs` (and not expired).
   */
  lemma StaleReply(state: map<string, MenuState>, group: string, text: Option<string>, replyId: string, now: int)
    requires group != "" && group in state && IsToken(Trim(text.GetOr("")))
    requires state[group].id.Some? && state[group].id.value != "" && Some(replyId) != state[group].id
    requires now - state[group].ts <= MenuTtlMs
    ensures NavStep(state, group, text, Some(replyId), now).Pass? <==> now - state[group].ts > StaleReplyMs
  {
  }

  /** Only a token navigates, and only where a menu was shown. */
  lemma NavigationNeedsMenu(state: map<string, MenuState>, group: string, text: Option<string>, replyId: Option<string>, now: int)
    ensures NavStep(state, group, text, replyId, now) != Pass ==> group != "" && group in state && IsToken(Trim(text.GetOr("")))
    ensures NavStep(state, group, text, replyId, now).Show? ==>
              now - state[group].ts <= MenuTtlMs && NavStep(state, group, text, replyId, now).t in "01234"
  {
  }

  /** After a page went out, the next navigation in the same group finds it. */
  lemma RememberedNavigates(m: map<string, MenuState>, group: string, page: Page, sent: Option<string>, now: int,
                            text: Option<string>, replyId: Option<string>, later: int)
    requires |m| < MenuStateLimit && group != "" && IsToken(Trim(text.GetOr("")))
    requires now <= later <= now + StaleReplyMs
    ensures NavStep(Remembered(m, group, page, sent, now), group, text, replyId, later).Show?
  {
  }
}
