/**
 * The two core commands: `help`, which replies with the rendered command list,
 * and `menu`, which maps its first argument to a menu page and sends it.
 */
module Core {
  import opened Wrappers
  import opened Text
  import opened Normalize
  import opened Storage
  import opened Actions
  import opened Help
  import opened Menu

  /** What the `menu` command's argument selects. */
  datatype MenuKey = AdminKey | ModerationKey | FunKey | HelpKey | RootKey | UnknownKey

  /** The argument as the handler compares it: the first word, trimmed and lower-cased; none is the empty word. */
  function MenuArg(args: seq<string>): string {
    Lower(Trim(if |args| > 0 then args[0] else ""))
  }

  /** The page names each key is spelled by. */
  const AdminWords: seq<string> := ["1", "admin", "admins", "ادارة", "إدارة"]
  const ModerationWords: seq<string> := ["2", "moderation", "mod", "اشراف", "إشراف"]
  const FunWords: seq<string> := ["3", "fun", "فعاليات"]
  const HelpWords: seq<string> := ["4", "help"]
  const RootWords: seq<string> := ["root", "main", "start"]

  /** The key a word selects: the first group that spells it; no word is the root; any other word is unknown. */
  function KeyOf(raw: string): (k: MenuKey)
    ensures raw == "" ==> k == RootKey
    ensures k == UnknownKey <==>
              raw != "" && raw !in AdminWords && raw !in ModerationWords && raw !in FunWords
              && raw !in HelpWords && raw !in RootWords
  {
    if raw in AdminWords then AdminKey
    else if raw in ModerationWords then ModerationKey
    else if raw in FunWords then FunKey
    else if raw in HelpWords then HelpKey
    else if raw in RootWords then RootKey
    else if raw != "" then UnknownKey
    else RootKey
  }

  /** No word spells two pages: each key's words select exactly that key. */
  lemma WordsSelectTheirKey(raw: string)
    ensures raw in AdminWords ==> KeyOf(raw) == AdminKey
    ensures raw in ModerationWords ==> KeyOf(raw) == ModerationKey
    ensures raw in FunWords ==> KeyOf(raw) == FunKey
    ensures raw in HelpWords ==> KeyOf(raw) == HelpKey
    ensures raw in RootWords ==> KeyOf(raw) == RootKey
  {
  }

  /** The digits `1`–`4` name the same pages as the bare navigation tokens. */
  lemma DigitsAgreeWithNavigation(t: char)
    requires '1' <= t <= '4'
    ensures KeyOf([t]) == (if t == '1' then AdminKey else if t == '2' then ModerationKey else if t == '3' then FunKey else HelpKey)
    ensures t != '4' ==> TokenPage(t) == (if t == '1' then AdminPage else if t == '2' then ModerationPage else FunPage)
  {
  }

  /** A trimmed word is matched lower-cased: `ADMIN` and `Admin` select what `admin` does. */
  lemma ArgumentLowered(w: string)
    requires Trimmed(w)
    ensures KeyOf(MenuArg([w])) == KeyOf(Lower(w))
    ensures NoUpper(w) ==> KeyOf(MenuArg([w])) == KeyOf(w)
  {
    TrimOfTrimmed(w);
    if NoUpper(w) {
      LowerOfNoUpper(w);
    }
  }

  /** The messages the `menu` command sends for a key, as they go out. */
  function MenuSends(m: Manager, key: MenuKey, d: StoreData, group: string, isAllowlisted: bool, net: Net, now: int): seq<Action>
    reads m
  {
    match key
    case AdminKey => [Quoted(group, AdminMenu)]
    case ModerationKey => [Quoted(group, ModerationPageReply(d, group, now))]
    case FunKey => [Quoted(group, FunMenu)]
    case HelpKey => [Quoted(group, HelpText(HelpBody(m.prefix, m.commands)))]
    case UnknownKey => RootSends(group, false, m.allowlistSize, m.requireCallerAdmin, isAllowlisted, net)
    case RootKey => RootSends(group, true, m.allowlistSize, m.requireCallerAdmin, isAllowlisted, net)
  }

  /** `help`: the rendered command list, quoting the command. */
  method HelpCommand(m: Manager, chat: string, net: Net) returns (acts: seq<Action>, threw: bool)
    ensures acts == [Quoted(chat, HelpText(HelpBody(m.prefix, m.commands)))] && threw == !net.sendOk
  {
    var body := RenderHelp(m.prefix, m.commands);
    acts := [Quoted(chat, HelpText(body))];
    threw := !net.sendOk;
  }

  /**
   * `menu`: the admin, moderation and fun pages are sent and remembered; help is
   * sent as a plain reply and not remembered; an unknown word gets the text root
   * page, and no word (or a root word) the interactive one.
   */
  method MenuCommand(m: Manager, store: Store, group: string, args: seq<string>, isAllowlisted: bool, net: Net, now: int)
    returns (acts: seq<Action>, threw: bool)
    requires m.Valid()
    modifies m, store
    ensures m.Valid() && store.saved == old(store.saved)
    ensures var key := KeyOf(MenuArg(args));
      && acts == MenuSends(m, key, old(store.data), group, isAllowlisted, net, now)
      && store.data == (if key == ModerationKey then AfterModerationPage(old(store.data), group, now) else old(store.data))
      && threw == (if key == RootKey then RootThrows(true, net) else if key == UnknownKey then RootThrows(false, net) else !net.sendOk)
      && m.state == (if threw || key == HelpKey then old(m.state)
                     else Remembered(old(m.state), group, KeyPage(key), net.sentId, now))
  {
    assert store as object != m;
    var key := KeyOf(MenuArg(args));
    if key == AdminKey {
      acts, threw := m.SendPage(group, AdminPage, AdminMenu, net, now);
    } else if key == ModerationKey {
      acts, threw := m.SendModeration(store, group, net, now);
    } else if key == FunKey {
      acts, threw := m.SendPage(group, FunPage, FunMenu, net, now);
    } else if key == HelpKey {
      acts, threw := HelpCommand(m, group, net);
    } else if key == UnknownKey {
      acts, threw := m.SendRoot(group, isAllowlisted, false, net, now);
    } else {
      acts, threw := m.SendRoot(group, isAllowlisted, true, net, now);
    }
  }

  /** The page a key remembers. */
  function KeyPage(key: MenuKey): Page {
    match key
    case AdminKey => AdminPage
    case ModerationKey => ModerationPage
    case FunKey => FunPage
    case _ => RootPage
  }
}
