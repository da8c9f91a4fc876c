/**
 * Parsing of command lines and command arguments: the command name and its
 * arguments, duration tokens such as `10m` or `2d`, on/off words, phone-number
 * targets, and where an admin command takes its targets from.
 */
module Parse {
  import opened Wrappers
  import opened Text
  import opened Seqs
  import opened Jid
  import opened Message

  /** A parsed command line. */
  datatype Command = Command(name: string, args: seq<string>, rawArgs: string)

  /**
   * `parseCommand`: trim, require the prefix (case-sensitive), split what follows
   * at white-space runs; the first word, lower-cased, is the name.
   */
  function ParseCommand(text: string, prefix: string): (r: Option<Command>)
    ensures r.None? <==> AllSpace(text) || !StartsWith(Trim(text), prefix) || AllSpace(Trim(text)[|prefix|..])
    ensures r.Some? ==> IsWord(r.value.name) && Lower(r.value.name) == r.value.name
    ensures r.Some? ==> forall k :: 0 <= k < |r.value.args| ==> IsWord(r.value.args[k])
    ensures r.Some? ==> r.value.rawArgs == Join(r.value.args, " ")
  {
    var trimmed := Trim(text);
    if trimmed == "" then None
    else if !StartsWith(trimmed, prefix) then None
    else
      var rest := Trim(trimmed[|prefix|..]);
      if rest == "" then None
      else
        var parts := Words(rest);
        assert parts != [] && parts[0] == Token(rest);
        LowerIdempotent(parts[0]);
        Some(Command(Lower(parts[0]), parts[1..], Join(parts[1..], " ")))
  }

  /** Words joined by blanks start with the first word's first character and end with the last word's last one. */
  lemma {:induction false} JoinWordsEnds(xs: seq<string>)
    requires |xs| > 0 && forall k :: 0 <= k < |xs| ==> IsWord(xs[k])
    ensures IsWord(xs[0]) && IsWord(xs[|xs| - 1])
    ensures var j := Join(xs, " ");
      j != [] && j[0] == xs[0][0] && j[|j| - 1] == xs[|xs| - 1][|xs[|xs| - 1]| - 1]
  {
    if |xs| > 1 {
      JoinWordsEnds(xs[1..]);
    }
  }

  /** A prefix not starting with white space, then a trimmed non-empty body, is trimmed and starts with the prefix. */
  lemma PrefixedLine(prefix: string, body: string)
    requires prefix == [] || !IsSpace(prefix[0])
    requires body != [] && Trimmed(body)
    ensures Trim(prefix + body) == prefix + body
    ensures StartsWith(prefix + body, prefix) && (prefix + body)[|prefix|..] == body
  {
    var text := prefix + body;
    assert text[|text| - 1] == body[|body| - 1];
    assert prefix == [] ==> text[0] == body[0];
    assert prefix != [] ==> text[0] == prefix[0];
    TrimOfTrimmed(text);
    assert text[..|prefix|] == prefix;
  }

  /** The words of a command line: the name, then each argument. */
  lemma RenderedWords(name: string, args: seq<string>)
    requires IsWord(name) && forall k :: 0 <= k < |args| ==> IsWord(args[k])
    ensures var body := Join([name] + args, " ");
      body != [] && Trimmed(body) && Words(body) == [name] + args
  {
    var words := [name] + args;
    assert forall k :: 0 <= k < |words| ==> IsWord(words[k]);
    JoinWordsEnds(words);
    WordsOfJoin(words);
  }

  /** Rendering a command as prefix, name and blank-separated arguments parses back to that command. */
  lemma ParseCommandOfRendered(prefix: string, name: string, args: seq<string>)
    requires prefix == [] || !IsSpace(prefix[0])
    requires IsWord(name) && Lower(name) == name
    requires forall k :: 0 <= k < |args| ==> IsWord(args[k])
    ensures ParseCommand(prefix + Join([name] + args, " "), prefix) == Some(Command(name, args, Join(args, " ")))
  {
    var body := Join([name] + args, " ");
    RenderedWords(name, args);
    PrefixedLine(prefix, body);
    TrimOfTrimmed(body);
    assert ([name] + args)[1..] == args;
  }

  /** A parsed duration: the count, its unit letter, the length in milliseconds, and whether it exceeds a year. */
  datatype Duration = Duration(count: nat, unit: char, ms: nat, tooLarge: bool)

  /** 365 days in milliseconds. */
  const MaxDurationMs: nat := 365 * 24 * 60 * 60 * 1000

  predicate IsUnit(c: char) {
    c == 's' || c == 'm' || c == 'h' || c == 'd' || c == 'w'
  }

  /** Milliseconds per unit: second, minute, hour, day, week. */
  function UnitMs(u: char): nat {
    if u == 's' then 1000
    else if u == 'm' then 60_000
    else if u == 'h' then 3_600_000
    else if u == 'd' then 86_400_000
    else 604_800_000
  }

  /** The pattern `^(\d{1,6})([smhdw])$`. */
  predicate DurationShape(v: string) {
    2 <= |v| <= 7 && AllDigits(v[..|v| - 1]) && IsUnit(v[|v| - 1])
  }

  lemma Pow10Six()
    ensures Pow10(6) == 1_000_000
  {
    assert Pow10(1) == 10;
    assert Pow10(2) == 100;
    assert Pow10(3) == 1000;
    assert Pow10(4) == 10000;
    assert Pow10(5) == 100000;
  }

  lemma {:induction false} Pow10Monotone(i: nat, j: nat)
    requires i <= j
    ensures Pow10(i) <= Pow10(j)
    decreases j
  {
    if i < j {
      Pow10Monotone(i, j - 1);
    }
  }

  /** At most six digits denote a number below a million. */
  lemma SixDigitsBound(digits: string)
    requires AllDigits(digits) && |digits| <= 6
    ensures DigitsValue(digits) < 1_000_000
  {
    DigitsValueBound(digits);
    Pow10Six();
    Pow10Monotone(|digits|, 6);
  }

  /** What a duration promises: a unit letter, a count of one to six digits, its length in milliseconds, and the year limit. */
  predicate ValidDuration(d: Duration) {
    && IsUnit(d.unit) && 1 <= d.count < 1_000_000
    && d.ms == d.count * UnitMs(d.unit)
    && (d.tooLarge <==> d.ms > MaxDurationMs)
  }

  /** The duration a trimmed, lower-cased token denotes. */
  function DurationOf(v: string): (r: Option<Duration>)
    ensures r.Some? <==> DurationShape(v) && DigitsValue(v[..|v| - 1]) > 0
    ensures r.Some? ==> ValidDuration(r.value)
    ensures r.Some? ==> r.value.count == DigitsValue(v[..|v| - 1]) && r.value.unit == v[|v| - 1]
  {
    if !DurationShape(v) then None
    else
      var digits := v[..|v| - 1];
      var count := DigitsValue(digits);
      if count == 0 then None
      else
        SixDigitsBound(digits);
        var unit := v[|v| - 1];
        var ms := count * UnitMs(unit);
        Some(Duration(count, unit, ms, ms > MaxDurationMs))
  }

  /**
   * `parseDurationToken`: after trimming and lower-casing, one to six digits and a
   * unit letter, with a positive count.
   */
  function ParseDurationToken(value: string): (r: Option<Duration>)
    ensures var v := Lower(Trim(value));
      r.Some? <==> DurationShape(v) && DigitsValue(v[..|v| - 1]) > 0
    ensures r.Some? ==> ValidDuration(r.value)
    ensures r.Some? ==> var v := Lower(Trim(value));
      r.value.count == DigitsValue(v[..|v| - 1]) && r.value.unit == v[|v| - 1]
  {
    DurationOf(Lower(Trim(value)))
  }

  /** A word without capital letters and with no white space at either end is its own trimmed, lower-cased form. */
  lemma PlainWord(w: string)
    requires Trimmed(w) && NoUpper(w)
    ensures Lower(Trim(w)) == w
  {
    TrimOfTrimmed(w);
    LowerOfNoUpper(w);
  }

  /** A rendered count followed by a unit letter has no white space at its ends and no capital letters. */
  lemma RenderedToken(count: nat, unit: char)
    requires IsUnit(unit)
    ensures var t := NatToString(count) + [unit];
      Trimmed(t) && NoUpper(t) && t[..|t| - 1] == NatToString(count)
  {
    var digits := NatToString(count);
    var t := digits + [unit];
    assert t[0] == digits[0] && IsDigit(digits[0]);
    forall i | 0 <= i < |t| ensures !('A' <= t[i] <= 'Z') {
      if i < |digits| {
        assert t[i] == digits[i] && IsDigit(digits[i]);
      }
    }
  }

  /** A count and a unit letter render to a token that parses back to them. */
  lemma DurationRoundTrip(count: nat, unit: char)
    requires 0 < count < 1_000_000 && IsUnit(unit)
    ensures ParseDurationToken(NatToString(count) + [unit])
         == Some(Duration(count, unit, count * UnitMs(unit), count * UnitMs(unit) > MaxDurationMs))
  {
    var t := NatToString(count) + [unit];
    RenderedToken(count, unit);
    PlainWord(t);
    Pow10Six();
    NatToStringLength(count, 6);
  }

  /** `renderDurationAr`'s unit names: second, minute, hour, day, week. */
  function UnitLabel(u: char): string {
    if u == 's' then "ثانية"
    else if u == 'm' then "دقيقة"
    else if u == 'h' then "ساعة"
    else if u == 'd' then "يوم"
    else "أسبوع"
  }

  /** `renderDurationAr`: the count, a blank, and the unit's name; empty for no duration. */
  function RenderDuration(d: Option<Duration>): (r: string)
    ensures d.None? <==> r == ""
    ensures d.Some? ==> BeforeFirst(r, ' ') == NatToString(d.value.count)
    ensures d.Some? ==> EndsWith(r, UnitLabel(d.value.unit))
    ensures d.Some? ==> r == NatToString(d.value.count) + " " + UnitLabel(d.value.unit)
  {
    if d.None? then ""
    else
      var n := NatToString(d.value.count);
      var r := n + " " + UnitLabel(d.value.unit);
      assert r[..|n|] == n && r[|n|] == ' ';
      assert ' ' !in n by {
        assert forall i :: 0 <= i < |n| ==> IsDigit(n[i]);
      }
      BeforeFirstAt(r, ' ', |n|);
      assert r[|r| - |UnitLabel(d.value.unit)|..] == UnitLabel(d.value.unit);
      r
  }

  const OnWords: seq<string> := ["on", "enable", "enabled", "1", "true", "yes", "y"]
  const OffWords: seq<string> := ["off", "disable", "disabled", "0", "false", "no", "n"]

  /** `parseOnOff`: after trimming and lower-casing, an "on" word gives true, an "off" word false, anything else nothing. */
  function ParseOnOff(value: string): (r: Option<bool>)
    ensures r == Some(true) <==> Lower(Trim(value)) in OnWords
    ensures r == Some(false) <==> Lower(Trim(value)) in OffWords
    ensures r.None? <==> Lower(Trim(value)) !in OnWords + OffWords
  {
    var v := Lower(Trim(value));
    OnOffDisjoint();
    if v == "" then None
    else if v in OnWords then Some(true)
    else if v in OffWords then Some(false)
    else None
  }

  /** No word means both "on" and "off". */
  lemma OnOffDisjoint()
    ensures forall w :: w in OnWords ==> w !in OffWords
  {
  }

  /** Each listed word is understood as itself. */
  lemma ParseOnOffWords()
    ensures forall w :: w in OnWords ==> ParseOnOff(w) == Some(true)
    ensures forall w :: w in OffWords ==> ParseOnOff(w) == Some(false)
  {
    forall w | w in OnWords ensures ParseOnOff(w) == Some(true) {
      PlainWord(w);
    }
    forall w | w in OffWords ensures ParseOnOff(w) == Some(false) {
      PlainWord(w);
    }
  }

  /** The server part of a phone-number user JID. */
  const PhoneServer: string := "s.whatsapp.net"

  lemma PhoneServerParts()
    ensures PhoneSuffix == "@" + PhoneServer
    ensures Lower(PhoneServer) == PhoneServer
  {
    assert NoUpper(PhoneServer);
    LowerOfNoUpper(PhoneServer);
  }

  lemma DigitsHaveNoSeparators(digits: string)
    requires AllDigits(digits)
    ensures '@' !in digits && ':' !in digits
  {
    assert forall i :: 0 <= i < |digits| ==> IsDigit(digits[i]);
  }

  /** A run of digits followed by the phone suffix is already a normalised user JID. */
  lemma PhoneJid(digits: string)
    requires digits != [] && AllDigits(digits)
    ensures NormalizeUserJid(digits + PhoneSuffix) == Some(digits + PhoneSuffix)
  {
    PhoneServerParts();
    DigitsHaveNoSeparators(digits);
    assert digits + PhoneSuffix == digits + "@" + PhoneServer;
    assert IsDigit(digits[0]);
    NormalizeJoin(digits, PhoneServer);
    var j := digits + PhoneSuffix;
    assert j[|j| - |PhoneSuffix|..] == PhoneSuffix;
  }

  /** `normalizePhoneTarget`: the digits of the argument, if there are 6 to 20 of them, as a phone-number JID. */
  function NormalizePhoneTarget(value: string): (r: Option<string>)
    ensures r.Some? <==> 6 <= |DigitsOnly(value)| <= 20
    ensures r.Some? ==> r.value == DigitsOnly(value) + PhoneSuffix && Canonical(r.value)
  {
    var digits := DigitsOnly(value);
    if digits == "" then None
    else if |digits| < 6 || |digits| > 20 then None
    else
      PhoneJid(digits);
      NormalizeUserJid(digits + PhoneSuffix)
  }

  /** A number of 6 to 20 digits, with or without a leading `+`, resolves to the phone JID of its digits. */
  lemma PhoneTargetOfDigits(d: string)
    requires AllDigits(d) && 6 <= |d| <= 20
    ensures NormalizePhoneTarget(d) == Some(d + PhoneSuffix)
    ensures NormalizePhoneTarget("+" + d) == Some(d + PhoneSuffix)
  {
    DigitsOnlyOfDigits(d);
    assert ("+" + d)[1..] == d;
  }

  /** Where an admin command took its targets from. */
  datatype TargetSource = FromMentions | FromReply | FromNumbers

  /** The targets of an admin command and their source (`None` when nothing resolved). */
  datatype Targets = Targets(targets: seq<string>, source: Option<TargetSource>)

  /** The phone targets among the arguments, in order, repetitions kept. */
  function PhoneTargets(args: seq<string>): (r: seq<string>)
    ensures AllCanonical(r)
  {
    if args == [] then []
    else
      var last := NormalizePhoneTarget(args[|args| - 1]);
      PhoneTargets(args[..|args| - 1]) + if last.Some? then [last.value] else []
  }

  /**
   * `resolveTargetsFromMessage`: the mentions if there are any, else the author of
   * the quoted message if there is one, else the phone numbers among the arguments;
   * mentions and numbers are de-duplicated keeping first occurrences.
   */
  function TargetsOf(m: Option<Msg>, args: seq<string>): (r: Targets)
    ensures NoDup(r.targets) && AllCanonical(r.targets)
    ensures r.source.None? <==> r.targets == []
  {
    var mentions := ExtractMentions(m);
    if mentions != [] then CanonicalDedup(mentions); Targets(Dedup(mentions), Some(FromMentions))
    else
      match ExtractQuotedParticipant(m)
      case Some(q) => Targets([q], Some(FromReply))
      case None =>
        var numbers := PhoneTargets(args);
        if numbers != [] then CanonicalDedup(numbers); Targets(Dedup(numbers), Some(FromNumbers)) else Targets([], None)
  }

  /** Each source wins over the ones after it: mentions, then the quoted author, then numbers. */
  lemma TargetsPriority(m: Option<Msg>, args: seq<string>)
    ensures ExtractMentions(m) != [] ==> (TargetsOf(m, args).source == Some(FromMentions)
      && Elems(TargetsOf(m, args).targets) == Elems(ExtractMentions(m)))
    ensures ExtractMentions(m) == [] && ExtractQuotedParticipant(m).Some? ==>
      TargetsOf(m, args) == Targets([ExtractQuotedParticipant(m).value], Some(FromReply))
    ensures TargetsOf(m, args).source == Some(FromNumbers) ==>
      (ExtractMentions(m) == [] && ExtractQuotedParticipant(m).None?
       && Elems(TargetsOf(m, args).targets) == Elems(PhoneTargets(args)))
  {
  }

  /** The arguments are not consulted when a mention or a quoted author supplies targets. */
  lemma TargetsIgnoreArgs(m: Option<Msg>, args: seq<string>, args': seq<string>)
    requires ExtractMentions(m) != [] || ExtractQuotedParticipant(m).Some?
    ensures TargetsOf(m, args) == TargetsOf(m, args')
  {
  }

  /** `resolveTargetsFromMessage`, with its loop over the arguments. */
  method ResolveTargets(m: Option<Msg>, args: seq<string>) returns (r: Targets)
    ensures r == TargetsOf(m, args)
  {
    var mentions := ExtractMentions(m);
    if mentions != [] {
      return Targets(Dedup(mentions), Some(FromMentions));
    }
    var quoted := ExtractQuotedParticipant(m);
    if quoted.Some? {
      return Targets([quoted.value], Some(FromReply));
    }
    var numbers: seq<string> := [];
    var i := 0;
    while i < |args|
      invariant 0 <= i <= |args|
      invariant numbers == PhoneTargets(args[..i])
    {
      var jid := NormalizePhoneTarget(args[i]);
      assert args[..i + 1][..i] == args[..i];
      if jid.Some? {
        numbers := numbers + [jid.value];
      }
      i := i + 1;
    }
    assert args[..|args|] == args;
    if |numbers| > 0 {
      return Targets(Dedup(numbers), Some(FromNumbers));
    }
    return Targets([], None);
  }
}
