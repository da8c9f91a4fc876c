/**
 * What the router works with besides the store: the incoming message envelope,
 * the answers of the WhatsApp connection for the message being handled, and the
 * outbound effects, recorded in order as actions. A reply is recorded by the kind
 * of message and the data its text is made from; fixed texts that callers rely on
 * are spelled out by `FixedText`.
 */
module Actions {
  import opened Wrappers
  import opened Text
  import opened Message
  import opened Normalize
  import opened Storage
  import opened Parse
  import opened GroupAdmin

  /** `msg.key`. */
  datatype Key = Key(
    remoteJid: Option<string>,
    fromMe: bool,
    participant: Option<string>,
    participantAlt: Option<string>,
    remoteJidAlt: Option<string>)

  /** An incoming message: its key and its content, each possibly missing. */
  datatype Envelope = Envelope(key: Option<Key>, message: Option<Msg>)

  /**
   * The connection, as seen while one message is handled: the bot's own `user.id`
   * and `user.jid`, what a group-metadata request answers, whether a text send
   * succeeds, whether the interactive menu is accepted, the key id a sent message
   * gets, and the targets a participant update fails for.
   */
  datatype Net = Net(
    userId: Option<string>,
    userJid: Option<string>,
    meta: Fetch,
    sendOk: bool,
    interactiveOk: bool,
    sentId: Option<string>,
    updateFails: set<string>)

  /** The four moderation rules, in the order they are tried. */
  datatype Rule = AntiImage | AntiSticker | Filter | AntiLink

  /** The rule's name, as the warning cache keys it. */
  function RuleName(r: Rule): string {
    match r
    case AntiImage => "antiimage"
    case AntiSticker => "antisticker"
    case Filter => "filter"
    case AntiLink => "antilink"
  }

  /** The warning key of the mute enforcer. */
  const MuteRuleName: string := "mute"

  /** The switches a command reports about. */
  datatype Topic = LinkTopic | ImageTopic | StickerTopic | FilterTopic | WordsTopic | ExemptTopic | WelcomeTopic | TemplateTopic

  /** The participant updates a group action performs. */
  datatype UpdateOp = Remove | Promote | Demote

  /** `groupParticipantsUpdate`'s action name. */
  function OpName(op: UpdateOp): string {
    match op
    case Remove => "remove"
    case Promote => "promote"
    case Demote => "demote"
  }

  /** One line of a group action's report. */
  datatype ReportLine =
    | Done(op: UpdateOp, count: nat)
    | NotDone(op: UpdateOp, count: nat, list: string)
    | BanSaved(count: nat)
    | AlreadyBanned
    | MutedFor(count: nat, duration: Option<Duration>)
    | AlreadyMuted
    | BotUnverified
    | BotNotAdminNote

  /** The kinds of message the bot sends. */
  datatype Reply =
    // router
    | UnknownCommand(prefix: string)
    | GroupOnly
    | AllowlistUnset
    | NotAllowlisted
    | NotGroupAdmin
    | CannotVerifyAdmin
    | BotNotAdmin
    | CommandCooldown(waitMs: int)
    | FunCooldown(waitMs: int)
    | CommandFailed
    // enforcers
    | MuteWarning(tag: string)
    | RuleWarning(rule: Rule, tag: string)
    // menus and help
    | RootMenu(interactive: bool, allowlistSize: nat, requireCallerAdmin: bool, isAllowlisted: bool)
    | AdminMenu
    | ModerationMenu(view: Option<ModerationView>, welcome: Option<Welcome>)
    | FunMenu
    | HelpText(text: string)
    // moderation commands
    | RulesText(view: Option<ModerationView>)
    | Usage(command: string)
    | UpdateFailed(topic: Topic)
    | Switched(topic: Topic, enabled: bool)
    | ExemptSwitched(allowlisted: bool, enabled: bool)
    | WordListEmpty
    | WordList(text: string)
    | PhrasePrompt(sub: string)
    | PhraseTooLong
    | PhraseAdded(total: nat)
    | PhraseExists
    | PhraseRemoved(total: nat)
    | PhraseMissing
    | WelcomeUnavailable
    | WelcomeStatus(enabled: bool, shown: string)
    | TemplatePrompt
    | TemplateTooLong
    | TemplateUpdated
    // admin commands
    | NoTargets(example: string)
    | Report(lines: seq<ReportLine>)
    | NothingDone
    | DurationTooLarge
    | NoBans
    | Unbanned(count: nat)
    | NoMutes
    | Unmuted(count: nat)
    // the fun catalogue
    | FunReply(command: string)

  /** An outbound effect. */
  datatype Action =
    | Delete(chat: string, key: Key)
    | Send(chat: string, reply: Reply, quoted: bool, mentions: seq<string>)
    | Update(group: string, jid: string, op: UpdateOp)

  /** `ctx.reply` and the menu sends: a text in the chat, quoting the message being handled, mentioning no one. */
  function Quoted(chat: string, r: Reply): Action {
    Send(chat, r, true, [])
  }

  predicate IsSend(a: Action) {
    a.Send?
  }

  predicate IsDelete(a: Action) {
    a.Delete?
  }

  /** The number of actions of one kind. */
  function CountOf(acts: seq<Action>, p: Action -> bool): nat {
    if acts == [] then 0 else (if p(acts[0]) then 1 else 0) + CountOf(acts[1..], p)
  }

  lemma {:induction false} CountOfAppend(a: seq<Action>, b: seq<Action>, p: Action -> bool)
    ensures CountOf(a + b, p) == CountOf(a, p) + CountOf(b, p)
    decreases |a|
  {
    if a == [] {
      assert a + b == b;
    } else {
      assert (a + b)[1..] == a[1..] + b;
      CountOfAppend(a[1..], b, p);
    }
  }

  /** The text of the replies whose wording is fixed. */
  function FixedText(r: Reply): Option<string> {
    match r
    case UnknownCommand(prefix) => Some("أمر غير معروف. اكتب " + prefix + "help لعرض الأوامر.")
    case GroupOnly => Some("هذا الأمر يعمل داخل المجموعات فقط.")
    case AllowlistUnset => Some("⚠️ لم يتم إعداد قائمة السماح للمخولين بعد.")
    case NotAllowlisted => Some("عذرًا، هذا الأمر مخصص للمخولين فقط.")
    case NotGroupAdmin => Some("عذرًا، هذا الأمر متاح لمشرفي المجموعة فقط.")
    case CannotVerifyAdmin => Some("تعذر التحقق من صلاحيات المشرفين حاليًا. حاول لاحقًا.")
    case BotNotAdmin => Some("لا يمكن تنفيذ الأمر لأن البوت ليس مشرفًا في المجموعة.")
    case CommandFailed => Some("حدث خطأ أثناء تنفيذ الأمر.")
    case MuteWarning(tag) => Some("⚠️ " + tag + " أنت مكتوم في هذه المجموعة.")
    case RuleWarning(rule, tag) => Some(match rule
        case AntiLink => "⚠️ " + tag + " يُمنع إرسال الروابط في هذه المجموعة."
        case Filter => "⚠️ " + tag + " هذه العبارة غير مسموحة في هذه المجموعة."
        case AntiImage => "⚠️ " + tag + " يُمنع إرسال الصور في هذه المجموعة."
        case AntiSticker => "⚠️ " + tag + " يُمنع إرسال الملصقات في هذه المجموعة.")
    case Switched(LinkTopic, enabled) => Some(if enabled then "✅ تم تفعيل منع الروابط." else "✅ تم تعطيل منع الروابط.")
    case Unbanned(n) => Some("✅ تم إلغاء الحظر عن " + NatToString(n) + " عضو/أعضاء.")
    case _ => None
  }

  /** The denials of the router's gates, each with its own fixed text. */
  predicate Denial(r: Reply) {
    r.GroupOnly? || r.AllowlistUnset? || r.NotAllowlisted? || r.NotGroupAdmin? || r.CannotVerifyAdmin? || r.BotNotAdmin?
  }

  /** Every denial has a fixed text, and different denials have different texts. */
  lemma DenialTexts(a: Reply, b: Reply)
    requires Denial(a) && Denial(b) && a != b
    ensures FixedText(a).Some? && FixedText(b).Some? && FixedText(a) != FixedText(b)
  {
    var ga := "هذا الأمر يعمل داخل المجموعات فقط.";
    var al := "⚠️ لم يتم إعداد قائمة السماح للمخولين بعد.";
    var na := "عذرًا، هذا الأمر مخصص للمخولين فقط.";
    var ng := "عذرًا، هذا الأمر متاح لمشرفي المجموعة فقط.";
    var cv := "تعذر التحقق من صلاحيات المشرفين حاليًا. حاول لاحقًا.";
    var bn := "لا يمكن تنفيذ الأمر لأن البوت ليس مشرفًا في المجموعة.";
    assert |ga| == 34 && |al| == 42 && |na| == 35 && |ng| == 42 && |cv| == 52 && |bn| == 53;
    assert al[0] == '⚠' && ng[0] == 'ع';
  }
}
