/**
 * The moderation commands: `rules` shows a group's switches, `antilink`,
 * `antiimage` and `antisticker` set one switch each, `filter` manages the banned
 * phrases, `exempt` sets who the enforcer leaves alone, and `welcome` shows or
 * changes the welcome message. Each handler ends in exactly one reply, which the
 * command's caller sends quoting the command message.
 */
module ModerationCommands {
  import opened Wrappers
  import opened Text
  import opened Seqs
  import opened Jid
  import opened Normalize
  import opened Storage
  import opened Actions
  import opened Parse

  /** `ctx.args[i] ?? ''`. */
  function Arg(args: seq<string>, i: nat): string {
    if i < |args| then args[i] else ""
  }

  /** A sub-command word as the handlers compare it: trimmed and lower-cased. */
  function SubOf(args: seq<string>): string {
    Lower(Trim(Arg(args, 0)))
  }

  /** The answer to a switch the store was asked to set: only a group identifier is accepted. */
  function SwitchReply(topic: Topic, group: string, enabled: bool): Reply {
    if IsGroupJid(group) then Switched(topic, enabled) else UpdateFailed(topic)
  }

  // ----- rules -----------------------------------------------------------------

  /** `rules`: the group's switches and phrases as the store reports them. */
  method RulesCommand(store: Store, group: string, now: int) returns (reply: Reply)
    modifies store
    ensures reply == RulesText(ModerationAt(old(store.data), group, now))
    ensures store.data == Touched(old(store.data), group, now) && store.saved == old(store.saved)
  {
    var m := store.GetModeration(group, now);
    reply := RulesText(m);
  }

  // ----- the three rule switches -----------------------------------------------

  /** The three commands that each set one rule. */
  datatype RuleSwitch = LinkSwitch | ImageSwitch | StickerSwitch

  function SwitchTopic(s: RuleSwitch): Topic {
    match s
    case LinkSwitch => LinkTopic
    case ImageSwitch => ImageTopic
    case StickerSwitch => StickerTopic
  }

  function SwitchFlag(s: RuleSwitch): FlagKey {
    match s
    case LinkSwitch => FlagKey.AntiLink
    case ImageSwitch => FlagKey.AntiImage
    case StickerSwitch => FlagKey.AntiSticker
  }

  function SwitchCommand(s: RuleSwitch): string {
    match s
    case LinkSwitch => "antilink"
    case ImageSwitch => "antiimage"
    case StickerSwitch => "antisticker"
  }

  /**
   * `antilink`, `antiimage`, `antisticker`: a first argument that is no on/off word
   * gets the usage and changes nothing; otherwise the switch is set and reported.
   */
  method SetRule(store: Store, s: RuleSwitch, group: string, args: seq<string>, now: int) returns (reply: Reply)
    modifies store
    ensures var e := ParseOnOff(Arg(args, 0));
      && (e.None? ==> reply == Usage(SwitchCommand(s)) && store.data == old(store.data) && store.saved == old(store.saved))
      && (e.Some? ==>
            && reply == SwitchReply(SwitchTopic(s), group, e.value)
            && store.data == WithSwitch(old(store.data), group, SwitchFlag(s), e.value, now)
            && store.saved == if IsGroupJid(group) then Some(store.data) else old(store.saved))
  {
    var enabled := ParseOnOff(Arg(args, 0));
    if enabled.None? {
      return Usage(SwitchCommand(s));
    }
    var res := SetSwitch(store, s, group, enabled.value, now);
    if !res.ok {
      return UpdateFailed(SwitchTopic(s));
    }
    reply := Switched(SwitchTopic(s), enabled.value);
  }

  /** The store setter each of the three commands calls. */
  method SetSwitch(store: Store, s: RuleSwitch, group: string, enabled: bool, now: int) returns (res: Outcome)
    modifies store
    ensures res.ok == IsGroupJid(group)
    ensures store.data == WithSwitch(old(store.data), group, SwitchFlag(s), enabled, now)
    ensures store.saved == if IsGroupJid(group) then Some(store.data) else old(store.saved)
  {
    if s == LinkSwitch {
      res := store.SetAntiLink(group, enabled, now);
    } else if s == ImageSwitch {
      res := store.SetAntiImage(group, enabled, now);
    } else {
      res := store.SetAntiSticker(group, enabled, now);
    }
  }

  /**
   * A switch set for a group is what the next read reports, at any later time;
   * the other switches and the phrases stay as they were.
   */
  lemma SwitchReadBack(d: StoreData, group: string, k: FlagKey, value: bool, now: int, later: int)
    requires IsGroupJid(group)
    ensures var before := ModerationAt(d, group, now).value;
      var after := ModerationAt(WithSwitch(d, group, k, value, now), group, later).value;
      && FlagValue(after.moderation, k) == value
      && (forall other :: other != k ==> FlagValue(after.moderation, other) == FlagValue(before.moderation, other))
      && after.bannedWords == before.bannedWords
  {
    var g := GroupAt(d, group, now);
    GroupAtPut(d, group, g.(moderation := SetFlag(g.moderation, k, value)), later, group);
  }

  // ----- filter ----------------------------------------------------------------

  /** At most this many phrases are listed. */
  const MaxListed: nat := 30
  /** A phrase longer than this is refused. */
  const MaxPhraseChars: nat := 200

  const ListTitle: string := "🚫 قائمة الكلمات/العبارات الممنوعة"

  /** The words `filter` removes with. */
  const RemoveWords: seq<string> := ["remove", "del", "delete"]

  /** The text after the sub-command, rejoined with single blanks and trimmed. */
  function PhraseArg(args: seq<string>): string {
    Trim(Join(if |args| > 0 then args[1..] else [], " "))
  }

  /** One listed phrase, numbered from one. */
  function NumberLine(n: nat, w: string): string {
    NatToString(n) + ") " + w
  }

  /** The numbered lines of a list of phrases. */
  function Numbered(ws: seq<string>): (r: seq<string>)
    ensures |r| == |ws|
    ensures forall k :: 0 <= k < |ws| ==> r[k] == NumberLine(k + 1, ws[k])
    decreases |ws|
  {
    if ws == [] then [] else Numbered(ws[..|ws| - 1]) + [NumberLine(|ws|, ws[|ws| - 1])]
  }

  /** How many phrases are listed. */
  function ListedCount(n: nat): nat {
    if n <= MaxListed then n else MaxListed
  }

  /** The note on how many phrases the list leaves out. */
  function MoreLine(words: seq<string>): seq<string> {
    if |words| > MaxListed then ["\n... (+" + NatToString(|words| - MaxListed) + ")"] else []
  }

  /** The lines of `filter list`: the title, a blank line, the first phrases numbered, and the note on the rest. */
  function ListLines(words: seq<string>): seq<string> {
    [ListTitle, ""] + Numbered(words[..ListedCount(|words|)]) + MoreLine(words)
  }

  /**
   * The list shows the first thirty phrases, in stored order and numbered from
   * one, and ends with a note exactly when more phrases are stored.
   */
  lemma ListShape(words: seq<string>)
    ensures var lines := ListLines(words);
      && |lines| == 2 + ListedCount(|words|) + (if |words| > MaxListed then 1 else 0)
      && lines[0] == ListTitle
      && (forall k :: 0 <= k < ListedCount(|words|) ==> lines[k + 2] == NumberLine(k + 1, words[k]))
      && (|words| > MaxListed <==> |lines| == 3 + MaxListed)
  {
    var n := ListedCount(|words|);
    var lines := ListLines(words);
    forall k | 0 <= k < n ensures lines[k + 2] == NumberLine(k + 1, words[k]) {
      assert lines[k + 2] == Numbered(words[..n])[k];
    }
  }

  /** The list's text, as the loop of `filter list` builds it. */
  method ListText(words: seq<string>) returns (text: string)
    ensures text == Join(ListLines(words), "\n")
  {
    var head := words[..ListedCount(|words|)];
    var lines := [ListTitle, ""];
    var i := 0;
    while i < |head|
      invariant 0 <= i <= |head|
      invariant lines == [ListTitle, ""] + Numbered(head[..i])
    {
      assert head[..i + 1][..i] == head[..i];
      AppendAssoc([ListTitle, ""], Numbered(head[..i]), [NumberLine(i + 1, head[i])]);
      lines := lines + [NumberLine(i + 1, head[i])];
      i := i + 1;
    }
    assert head[..i] == head;
    if |words| > MaxListed {
      lines := lines + ["\n... (+" + NatToString(|words| - MaxListed) + ")"];
    } else {
      assert lines == lines + MoreLine(words);
    }
    assert lines == ListLines(words);
    text := Join(lines, "\n");
  }

  /** The stored phrases of a group, as `listBannedWords` reports them. */
  function WordsAt(d: StoreData, group: string, now: int): seq<string> {
    if IsGroupJid(group) then GroupAt(d, group, now).bannedWords else []
  }

  /** `filter list`: no phrases, or the list. */
  method FilterList(store: Store, group: string, now: int) returns (reply: Reply)
    modifies store
    ensures var words := WordsAt(old(store.data), group, now);
      reply == if words == [] then WordListEmpty else WordList(Join(ListLines(words), "\n"))
    ensures store.data == Touched(old(store.data), group, now) && store.saved == old(store.saved)
  {
    var words := store.ListBannedWords(group, now);
    if words == [] {
      return WordListEmpty;
    }
    var text := ListText(words);
    reply := WordList(text);
  }

  /** `filter add`: a phrase is needed and may be at most 200 characters; then it is added unless present. */
  method FilterAdd(store: Store, group: string, args: seq<string>, now: int) returns (reply: Reply)
    modifies store
    ensures var phrase := PhraseArg(args);
      && (phrase == "" ==> reply == PhrasePrompt("add"))
      && (phrase != "" && |phrase| > MaxPhraseChars ==> reply == PhraseTooLong)
      && (phrase == "" || |phrase| > MaxPhraseChars ==> store.data == old(store.data) && store.saved == old(store.saved))
      && (phrase != "" && |phrase| <= MaxPhraseChars ==>
            var c := AddWordCount(old(store.data), group, phrase, now);
            && reply == (if c.changed > 0 then PhraseAdded(c.total) else PhraseExists)
            && store.data == AddWordData(old(store.data), group, phrase, now)
            && store.saved == if c.changed > 0 then Some(store.data) else old(store.saved))
  {
    var phrase := PhraseArg(args);
    if phrase == "" {
      return PhrasePrompt("add");
    }
    if |phrase| > MaxPhraseChars {
      return PhraseTooLong;
    }
    var res := store.AddBannedWord(group, phrase, now);
    if res.changed > 0 {
      return PhraseAdded(res.total);
    }
    reply := PhraseExists;
  }

  /** `filter remove` (or `del`, `delete`): a phrase is needed; then the phrases with its lower-case form go. */
  method FilterRemove(store: Store, group: string, args: seq<string>, now: int) returns (reply: Reply)
    modifies store
    ensures var phrase := PhraseArg(args);
      && (phrase == "" ==> reply == PhrasePrompt("remove") && store.data == old(store.data) && store.saved == old(store.saved))
      && (phrase != "" ==>
            var c := RemoveWordCount(old(store.data), group, phrase, now);
            && reply == (if c.changed > 0 then PhraseRemoved(c.total) else PhraseMissing)
            && store.data == RemoveWordData(old(store.data), group, phrase, now)
            && store.saved == if IsGroupJid(group) && NormalizeBannedWord(phrase).Some? then Some(store.data) else old(store.saved))
  {
    var phrase := PhraseArg(args);
    if phrase == "" {
      return PhrasePrompt("remove");
    }
    var res := store.RemoveBannedWord(group, phrase, now);
    if res.changed > 0 {
      return PhraseRemoved(res.total);
    }
    reply := PhraseMissing;
  }

  /** The sub-commands of `filter`. */
  datatype FilterSub = FilterOn | FilterOff | FilterListing | FilterAdding | FilterRemoving | FilterUnknown

  function FilterSubOf(sub: string): (r: FilterSub)
    ensures r == FilterRemoving <==> sub in RemoveWords
    ensures r == FilterUnknown <==> sub !in ["on", "off", "list", "add"] + RemoveWords
  {
    if sub == "on" then FilterOn
    else if sub == "off" then FilterOff
    else if sub == "list" then FilterListing
    else if sub == "add" then FilterAdding
    else if sub in RemoveWords then FilterRemoving
    else FilterUnknown
  }

  /** `filter on|off`. */
  method FilterSwitch(store: Store, group: string, enabled: bool, now: int) returns (reply: Reply)
    modifies store
    ensures reply == SwitchReply(FilterTopic, group, enabled)
    ensures store.data == WithSwitch(old(store.data), group, FilterEnabled, enabled, now)
    ensures store.saved == if IsGroupJid(group) then Some(store.data) else old(store.saved)
  {
    var res := store.SetFilterEnabled(group, enabled, now);
    if !res.ok {
      return UpdateFailed(FilterTopic);
    }
    reply := Switched(FilterTopic, enabled);
  }

  /** `filter`: dispatches on the sub-command; none, or an unknown one, gets the usage. */
  method FilterCommand(store: Store, group: string, args: seq<string>, now: int) returns (reply: Reply)
    modifies store
    ensures var sub := FilterSubOf(SubOf(args));
      && (sub == FilterUnknown ==> reply == Usage("filter") && store.data == old(store.data) && store.saved == old(store.saved))
      && (sub == FilterOn || sub == FilterOff ==>
            && reply == SwitchReply(FilterTopic, group, sub == FilterOn)
            && store.data == WithSwitch(old(store.data), group, FilterEnabled, sub == FilterOn, now)
            && store.saved == if IsGroupJid(group) then Some(store.data) else old(store.saved))
      && (sub == FilterListing ==>
            var words := WordsAt(old(store.data), group, now);
            && reply == (if words == [] then WordListEmpty else WordList(Join(ListLines(words), "\n")))
            && store.data == Touched(old(store.data), group, now) && store.saved == old(store.saved))
      && (sub == FilterAdding ==>
            var phrase := PhraseArg(args);
            && (phrase == "" ==> reply == PhrasePrompt("add"))
            && (phrase != "" && |phrase| > MaxPhraseChars ==> reply == PhraseTooLong)
            && (phrase == "" || |phrase| > MaxPhraseChars ==> store.data == old(store.data) && store.saved == old(store.saved))
            && (phrase != "" && |phrase| <= MaxPhraseChars ==>
                  var c := AddWordCount(old(store.data), group, phrase, now);
                  && reply == (if c.changed > 0 then PhraseAdded(c.total) else PhraseExists)
                  && store.data == AddWordData(old(store.data), group, phrase, now)
                  && store.saved == if c.changed > 0 then Some(store.data) else old(store.saved)))
      && (sub == FilterRemoving ==>
            var phrase := PhraseArg(args);
            && (phrase == "" ==> reply == PhrasePrompt("remove") && store.data == old(store.data) && store.saved == old(store.saved))
            && (phrase != "" ==>
                  var c := RemoveWordCount(old(store.data), group, phrase, now);
                  && reply == (if c.changed > 0 then PhraseRemoved(c.total) else PhraseMissing)
                  && store.data == RemoveWordData(old(store.data), group, phrase, now)
                  && store.saved == if IsGroupJid(group) && NormalizeBannedWord(phrase).Some? then Some(store.data)
                                    else old(store.saved)))
  {
    var sub := FilterSubOf(SubOf(args));
    match sub
    case FilterOn => reply := FilterSwitch(store, group, true, now);
    case FilterOff => reply := FilterSwitch(store, group, false, now);
    case FilterListing => reply := FilterList(store, group, now);
    case FilterAdding => reply := FilterAdd(store, group, args, now);
    case FilterRemoving => reply := FilterRemove(store, group, args, now);
    case FilterUnknown => reply := Usage("filter");
  }

  /** A phrase just added is listed last, and adding it again reports that it exists. */
  lemma AddedThenExists(d: StoreData, group: string, phrase: string, now: int, later: int)
    requires AddWordCount(d, group, phrase, now).changed > 0
    ensures var after := AddWordData(d, group, phrase, now);
      && WordsAt(after, group, later) == WordsAt(d, group, now) + [NormalizeBannedWord(phrase).value]
      && AddWordCount(after, group, phrase, later).changed == 0
  {
    var g := GroupAt(d, group, now);
    var v := NormalizeBannedWord(phrase).value;
    ValidWordsSnoc(g.bannedWords, v);
    GroupAtPut(d, group, g.(bannedWords := g.bannedWords + [v]), later, group);
    KeysSnoc(g.bannedWords, v);
  }

  /** Once a phrase was removed, removing it again finds nothing. */
  lemma RemovedThenMissing(d: StoreData, group: string, phrase: string, now: int, later: int)
    requires IsGroupJid(group) && NormalizeBannedWord(phrase).Some?
    ensures var after := RemoveWordData(d, group, phrase, now);
      var needle := Lower(NormalizeBannedWord(phrase).value);
      && (forall w :: w in WordsAt(after, group, later) <==> w in WordsAt(d, group, now) && Lower(w) != needle)
      && RemoveWordCount(after, group, phrase, later).changed == 0
  {
    var g := GroupAt(d, group, now);
    var needle := Lower(NormalizeBannedWord(phrase).value);
    var rest := Without(g.bannedWords, needle);
    WithoutSpec(g.bannedWords, needle);
    GroupAtPut(d, group, g.(bannedWords := rest), later, group);
    assert needle !in Keys(rest) by {
      forall k | 0 <= k < |rest| ensures Keys(rest)[k] != needle {
        assert rest[k] in rest;
      }
    }
    WithoutSpec(rest, needle);
  }

  // ----- exempt ----------------------------------------------------------------

  const AllowlistWords: seq<string> := ["allowlist", "allowlisted", "allowed"]
  const AdminsWords: seq<string> := ["admins", "admin", "groupadmins", "groupadmin"]

  /**
   * `exempt allowlist|admins on|off`: both words are needed; then the exemption
   * for allowlisted senders or for group admins is set and reported.
   */
  method ExemptCommand(store: Store, group: string, args: seq<string>, now: int) returns (reply: Reply)
    modifies store
    ensures var kind := ExemptKind(SubOf(args));
      var e := ParseOnOff(Arg(args, 1));
      && (e.None? || kind.None? ==>
            reply == Usage("exempt") && store.data == old(store.data) && store.saved == old(store.saved))
      && (e.Some? && kind.Some? ==>
            var k := if kind.value then ExemptAllowlisted else ExemptAdmins;
            && reply == (if IsGroupJid(group) then ExemptSwitched(kind.value, e.value) else UpdateFailed(ExemptTopic))
            && store.data == WithSwitch(old(store.data), group, k, e.value, now)
            && store.saved == if IsGroupJid(group) then Some(store.data) else old(store.saved))
  {
    var enabled := ParseOnOff(Arg(args, 1));
    // an empty word names neither exemption
    var kind := ExemptKind(SubOf(args));
    if enabled.None? || kind.None? {
      return Usage("exempt");
    }
    var isAllowlist := kind.value;
    var res := SetExemption(store, isAllowlist, group, enabled.value, now);
    if !res.ok {
      return UpdateFailed(ExemptTopic);
    }
    reply := ExemptSwitched(isAllowlist, enabled.value);
  }

  /** Which exemption a word names: `true` the allowlisted senders, `false` the group admins. */
  function ExemptKind(kind: string): (r: Option<bool>)
    ensures r == Some(true) <==> kind in AllowlistWords
    ensures r == Some(false) <==> kind in AdminsWords
  {
    if kind in AllowlistWords then Some(true) else if kind in AdminsWords then Some(false) else None
  }

  /** The store setter for one of the two exemptions. */
  method SetExemption(store: Store, allowlisted: bool, group: string, enabled: bool, now: int) returns (res: Outcome)
    modifies store
    ensures res.ok == IsGroupJid(group)
    ensures store.data == WithSwitch(old(store.data), group, if allowlisted then ExemptAllowlisted else ExemptAdmins, enabled, now)
    ensures store.saved == if IsGroupJid(group) then Some(store.data) else old(store.saved)
  {
    if allowlisted {
      res := store.SetExemptAllowlisted(group, enabled, now);
    } else {
      res := store.SetExemptAdmins(group, enabled, now);
    }
  }

  /** No word names both exemptions, so the allowlist reading of a word is never shadowed. */
  lemma ExemptWordsDisjoint()
    ensures forall w :: w in AllowlistWords ==> w !in AdminsWords
  {
  }

  // ----- welcome ---------------------------------------------------------------

  /** The shown part of a template is cut after this many characters. */
  const MaxShownChars: nat := 900

  /** The template as `welcome` shows it: trimmed, and cut with an ellipsis when long. */
  function Shown(template: string): (r: string)
    ensures |Trim(template)| <= MaxShownChars ==> r == Trim(template)
    ensures |Trim(template)| > MaxShownChars ==> r == Trim(template)[..MaxShownChars] + "..."
    ensures |r| <= MaxShownChars + 3
  {
    var t := Trim(template);
    if |t| > MaxShownChars then t[..MaxShownChars] + "..." else t
  }

  /** `welcome` with no sub-command: the switch and the shown template, or that the settings could not be read. */
  function StatusReply(w: Option<Welcome>): Reply {
    if w.None? then WelcomeUnavailable else WelcomeStatus(w.value.enabled, Shown(w.value.template))
  }

  /** JavaScript's `\w`: an ASCII letter, a digit or an underscore. */
  predicate IsWordChar(c: char) {
    ('a' <= c <= 'z') || ('A' <= c <= 'Z') || ('0' <= c <= '9') || c == '_'
  }

  /** `/^set\b/i`: the word `set` in any case at the start, not followed by a word character. */
  predicate StartsWithSetWord(s: string) {
    |s| >= 3 && Lower(s[..3]) == "set" && (|s| == 3 || !IsWordChar(s[3]))
  }

  /** `replace(/^set\b/i, '')`. */
  function StripSetWord(s: string): (r: string)
    ensures StartsWithSetWord(s) ==> r == s[3..]
    ensures !StartsWithSetWord(s) ==> r == s
  {
    if StartsWithSetWord(s) then s[3..] else s
  }

  /** The template `welcome set` stores: the raw arguments without the word `set`, every literal `\n` a line break, trimmed. */
  function TemplateArg(rawArgs: string): string {
    Trim(ReplaceAll(Trim(StripSetWord(Trim(rawArgs))), "\\n", "\n"))
  }

  /**
   * `welcome`: nothing shows the current setting; `on`/`off` switch it; `set`
   * stores a new template of 1 to 2000 characters; anything else gets the usage.
   */
  method WelcomeCommand(store: Store, group: string, args: seq<string>, rawArgs: string, now: int) returns (reply: Reply)
    modifies store
    ensures var sub := SubOf(args);
      && (sub == "" ==>
            reply == StatusReply(WelcomeAt(old(store.data), group, now))
            && store.data == AfterWelcomeRead(old(store.data), group, now) && store.saved == old(store.saved))
      && (sub == "on" || sub == "off" ==>
            && reply == SwitchReply(WelcomeTopic, group, sub == "on")
            && store.data == WithWelcomeEnabled(old(store.data), group, sub == "on", now)
            && store.saved == if IsGroupJid(group) then Some(store.data) else old(store.saved))
      && (sub == "set" ==>
            var t := TemplateArg(rawArgs);
            && (t == "" ==> reply == TemplatePrompt && store.data == old(store.data) && store.saved == old(store.saved))
            && (|t| > MaxWelcomeTemplateChars ==>
                  reply == TemplateTooLong && store.data == old(store.data) && store.saved == old(store.saved))
            && (t != "" && |t| <= MaxWelcomeTemplateChars ==>
                  && reply == (if IsGroupJid(group) then TemplateUpdated else UpdateFailed(TemplateTopic))
                  && store.data == WithTemplate(old(store.data), group, t, now)
                  && store.saved == if IsGroupJid(group) then Some(store.data) else old(store.saved)))
      && (sub !in ["", "on", "off", "set"] ==>
            reply == Usage("welcome") && store.data == old(store.data) && store.saved == old(store.saved))
  {
    var sub := SubOf(args);
    if sub == "" {
      var current := store.GetWelcome(group, now);
      return StatusReply(current);
    }
    if sub == "on" || sub == "off" {
      var res := store.SetWelcomeEnabled(group, sub == "on", now);
      if !res.ok {
        return UpdateFailed(WelcomeTopic);
      }
      return Switched(WelcomeTopic, sub == "on");
    }
    if sub == "set" {
      var template := TemplateArg(rawArgs);
      if template == "" {
        return TemplatePrompt;
      }
      if |template| > MaxWelcomeTemplateChars {
        return TemplateTooLong;
      }
      var res := store.SetWelcomeTemplate(group, template, now);
      if !res.ok {
        return UpdateFailed(TemplateTopic);
      }
      return TemplateUpdated;
    }
    reply := Usage("welcome");
  }

  /**
   * A template stored with `welcome set` is what the group's welcome shows next:
   * exactly the text given when it has no CRLF; the welcome switch is kept.
   */
  lemma TemplateReadBack(d: StoreData, group: string, t: string, now: int, later: int)
    requires IsGroupJid(group) && t != "" && Trimmed(t) && |t| <= MaxWelcomeTemplateChars && !Contains(t, "\r\n")
    ensures var w := WelcomeAt(WithTemplate(d, group, t, now), group, later).value;
      w.template == t && w.enabled == GroupAt(d, group, now).welcome.enabled
  {
    var g := GroupAt(d, group, now);
    var h := g.(welcome := Welcome(g.welcome.enabled, t));
    TemplateOfStable(t);
    assert WithTemplate(d, group, t, now) == PutGroup(d, group, h);
    assert ValidGroup(h);
    WelcomeAtPut(d, group, h, later);
  }

  /** The welcome setting read back from a group just written: the template normalised twice more. */
  lemma WelcomeAtPut(d: StoreData, group: string, h: Group, later: int)
    requires IsGroupJid(group) && ValidGroup(h)
    ensures WelcomeAt(PutGroup(d, group, h), group, later)
      == Some(Welcome(h.welcome.enabled, NormalizeWelcomeTemplate(NormalizeWelcomeTemplate(h.welcome.template))))
  {
    GroupAtPut(d, group, h, later, group);
  }

  /** The switch set with `welcome on|off` is what the next read reports. */
  lemma WelcomeSwitchReadBack(d: StoreData, group: string, enabled: bool, now: int, later: int)
    requires IsGroupJid(group)
    ensures WelcomeAt(WithWelcomeEnabled(d, group, enabled, now), group, later).value.enabled == enabled
  {
    var g := GroupAt(d, group, now);
    GroupAtPut(d, group, g.(welcome := Welcome(enabled, NormalizeWelcomeTemplate(g.welcome.template))), later, group);
  }

  /** Only a leading `set` that is a whole word is taken off: `settings` stays. */
  lemma SetWordIsWhole(s: string)
    requires |s| > 3 && Lower(s[..3]) == "set" && IsWordChar(s[3])
    ensures StripSetWord(s) == s
  {
  }
}
