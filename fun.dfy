/**
 * Helpers of the fun commands: the argument of the dice/range roll, the random
 * choices (left nondeterministic), and the uptime clock.
 */
module Fun {
  import opened Wrappers
  import opened Text

  /** `pickRandom`: nothing for an empty list, otherwise some element of it. */
  method PickRandom<T>(list: seq<T>) returns (r: Option<T>)
    ensures r.None? <==> list == []
    ensures r.Some? ==> r.value in list
  {
    if |list| == 0 {
      return None;
    }
    var i :| 0 <= i < |list|;
    return Some(list[i]);
  }

  function Min(a: int, b: int): int {
    if a < b then a else b
  }

  function Max(a: int, b: int): int {
    if a < b then b else a
  }

  /** The largest bound a roll may have. */
  const RollLimit: int := 1_000_000

  /** The bounds `randomInRangeInclusive` accepts, in either order: both at least 1, neither above the limit. */
  predicate RangeAccepted(a: int, b: int) {
    Min(a, b) >= 1 && Max(a, b) <= RollLimit
  }

  /** `randomInRangeInclusive`: some number between the two bounds, both included, when the bounds are accepted. */
  method RandomInRange(a: int, b: int) returns (r: Option<int>)
    ensures r.Some? <==> RangeAccepted(a, b)
    ensures r.Some? ==> Min(a, b) <= r.value <= Max(a, b)
  {
    var lo := Min(a, b);
    var hi := Max(a, b);
    if lo < 1 || hi < 1 {
      return None;
    }
    if hi > RollLimit {
      return None;
    }
    var x :| lo <= x <= hi;
    return Some(x);
  }

  /** What the roll command is asked for: a number in a range, or a number of dice with a number of sides. */
  datatype Roll = RangeRoll(min: nat, max: nat) | Dice(rolls: nat, sides: nat)

  /** The arguments, trimmed, without the blank ones. */
  function Tokens(args: seq<string>): (r: seq<string>)
    ensures |r| <= |args|
    ensures forall k :: 0 <= k < |r| ==> r[k] != "" && Trimmed(r[k])
  {
    if args == [] then []
    else
      var t := Trim(args[0]);
      (if t == "" then [] else [t]) + Tokens(args[1..])
  }

  /** Between `lo` and `hi` decimal digits: the regular expression `\d{lo,hi}`. */
  predicate DigitRun(s: string, lo: nat, hi: nat) {
    lo <= |s| <= hi && AllDigits(s)
  }

  /** Two digit runs around the first `sep`, of at most `n1` and `n2` digits. */
  function SplitDigits(s: string, sep: char, n1: nat, n2: nat): (r: Option<(nat, nat)>)
    ensures r.Some? ==> exists i :: (0 <= i < |s| && s[i] == sep && DigitRun(s[..i], 1, n1) && DigitRun(s[i + 1..], 1, n2)
              && r.value == (DigitsValue(s[..i]), DigitsValue(s[i + 1..])))
  {
    match IndexOf(s, sep)
    case None => None
    case Some(i) =>
      if DigitRun(s[..i], 1, n1) && DigitRun(s[i + 1..], 1, n2)
      then Some((DigitsValue(s[..i]), DigitsValue(s[i + 1..])))
      else None
  }

  /** `parseRollSpec` once the first token is known: dice `NdM`, then `dM`, then `a-b`, then one or two numbers. */
  function RollOf(tokens: seq<string>): (r: Option<Roll>)
    requires tokens != []
    ensures r.Some? ==> ValidRoll(r.value)
  {
    var a0 := Lower(tokens[0]);
    var dice := SplitDigits(a0, 'd', 2, 4);
    if dice.Some? then
      var (rolls, sides) := dice.value;
      if rolls < 1 || rolls > 20 then None
      else if sides < 2 || sides > 1000 then None
      else Some(Dice(rolls, sides))
    else if |a0| >= 1 && a0[0] == 'd' && DigitRun(a0[1..], 1, 4) then
      var sides := DigitsValue(a0[1..]);
      if sides < 2 || sides > 1000 then None else Some(Dice(1, sides))
    else
      var hyphen := SplitDigits(a0, '-', 6, 6);
      if hyphen.Some? then
        var (lo, hi) := hyphen.value;
        if lo < 1 || hi < 1 then None
        else if lo > RollLimit || hi > RollLimit then None
        else Some(RangeRoll(lo, hi))
      else
        var n0 := DigitRun(tokens[0], 1, 6);
        var n1 := |tokens| > 1 && DigitRun(tokens[1], 1, 6);
        if n0 && n1 then
          var lo, hi := DigitsValue(tokens[0]), DigitsValue(tokens[1]);
          if lo < 1 || hi < 1 then None
          else if lo > RollLimit || hi > RollLimit then None
          else Some(RangeRoll(lo, hi))
        else if n0 && |tokens| == 1 then
          var hi := DigitsValue(tokens[0]);
          if hi < 2 || hi > RollLimit then None else Some(RangeRoll(1, hi))
        else None
  }

  /** What a parsed roll promises: dice within 1..20 rolls of 2..1000 sides, or a range whose ends lie in 1..1,000,000. */
  predicate ValidRoll(r: Roll) {
    match r
    case Dice(rolls, sides) => 1 <= rolls <= 20 && 2 <= sides <= 1000
    case RangeRoll(lo, hi) => 1 <= lo <= RollLimit && 1 <= hi <= RollLimit
  }

  /** `parseRollSpec`: no tokens means a roll of 1..6; otherwise the first token decides. */
  function ParseRollSpec(args: seq<string>): (r: Option<Roll>)
    ensures Tokens(args) == [] ==> r == Some(RangeRoll(1, 6))
    ensures r.Some? ==> ValidRoll(r.value)
  {
    var tokens := Tokens(args);
    if tokens == [] then Some(RangeRoll(1, 6)) else RollOf(tokens)
  }

  /** Every range a roll can ask for is one `randomInRangeInclusive` accepts, and so is every die. */
  lemma ParsedRollAccepted(args: seq<string>)
    requires ParseRollSpec(args).Some?
    ensures var r := ParseRollSpec(args).value;
      (r.RangeRoll? ==> RangeAccepted(r.min, r.max)) && (r.Dice? ==> RangeAccepted(1, r.sides))
  {
  }

  /** A trimmed argument without blanks is its own token. */
  lemma {:induction false} TokensOfWords(args: seq<string>)
    requires forall k :: 0 <= k < |args| ==> args[k] != "" && Trimmed(args[k])
    ensures Tokens(args) == args
  {
    if args != [] {
      var a, rest := args[0], args[1..];
      TrimOfTrimmed(a);
      forall k | 0 <= k < |rest| ensures rest[k] != "" && Trimmed(rest[k]) {
        assert rest[k] == args[k + 1];
      }
      TokensOfWords(rest);
      assert Tokens(args) == [a] + Tokens(rest);
      assert [a] + rest == args;
    }
  }

  /** The rendering of a number has no letters, no separators and no white space at its ends. */
  lemma NumberToken(n: nat)
    ensures var t := NatToString(n);
      t != "" && Trimmed(t) && NoUpper(t) && 'd' !in t && '-' !in t
  {
    var t := NatToString(n);
    assert forall i :: 0 <= i < |t| ==> IsDigit(t[i]);
  }

  /** Digit runs around a separator that occurs in neither are split at the separator. */
  lemma SplitAtSeparator(a: string, sep: char, b: string, n1: nat, n2: nat)
    requires DigitRun(a, 1, n1) && DigitRun(b, 1, n2) && !IsDigit(sep)
    ensures SplitDigits(a + [sep] + b, sep, n1, n2) == Some((DigitsValue(a), DigitsValue(b)))
  {
    var t := a + [sep] + b;
    assert sep !in a by {
      assert forall i :: 0 <= i < |a| ==> IsDigit(a[i]);
    }
    assert t[|a|] == sep && t[..|a|] == a && t[|a| + 1..] == b;
    IndexOfFirst(t, sep, |a|);
  }

  /** `NdM` with valid counts, written without capitals, parses to those dice. */
  lemma DiceRollOf(a: string, b: string)
    requires DigitRun(a, 1, 2) && DigitRun(b, 1, 4) && NoUpper(a + "d" + b)
    requires 1 <= DigitsValue(a) <= 20 && 2 <= DigitsValue(b) <= 1000
    ensures RollOf([a + "d" + b]) == Some(Dice(DigitsValue(a), DigitsValue(b)))
  {
    LowerOfNoUpper(a + "d" + b);
    SplitAtSeparator(a, 'd', b, 2, 4);
    assert a + "d" + b == a + ['d'] + b;
  }

  /** The token `NdM` written from two numbers. */
  lemma DiceToken(rolls: nat, sides: nat)
    requires 1 <= rolls <= 20 && 2 <= sides <= 1000
    ensures var a, b := NatToString(rolls), NatToString(sides);
      var t := a + "d" + b;
      t != "" && Trimmed(t) && NoUpper(t) && DigitRun(a, 1, 2) && DigitRun(b, 1, 4)
  {
    var a, b := NatToString(rolls), NatToString(sides);
    var t := a + "d" + b;
    NumberToken(rolls);
    NumberToken(sides);
    assert Pow10(2) == 100 && Pow10(4) == 10000;
    NatToStringLength(rolls, 2);
    NatToStringLength(sides, 4);
    assert t[0] == a[0] && t[|t| - 1] == b[|b| - 1];
    forall i | 0 <= i < |t| ensures !('A' <= t[i] <= 'Z') {
      if i < |a| { assert t[i] == a[i]; } else if i > |a| { assert t[i] == b[i - |a| - 1]; }
    }
  }

  /** `NdM` with valid counts parses to those dice. */
  lemma DiceRoundTrip(rolls: nat, sides: nat)
    requires 1 <= rolls <= 20 && 2 <= sides <= 1000
    ensures ParseRollSpec([NatToString(rolls) + "d" + NatToString(sides)]) == Some(Dice(rolls, sides))
  {
    var a, b := NatToString(rolls), NatToString(sides);
    DiceToken(rolls, sides);
    TokensOfWords([a + "d" + b]);
    DiceRollOf(a, b);
  }

  /** A number is not split at a separator it does not contain. */
  lemma NoSeparator(s: string, sep: char, n1: nat, n2: nat)
    requires sep !in s
    ensures SplitDigits(s, sep, n1, n2).None?
  {
  }

  /** Two arguments of one to six digits, each at least 1, are read as a range in the order given. */
  lemma RangeRollOf(a: string, b: string)
    requires DigitRun(a, 1, 6) && DigitRun(b, 1, 6) && NoUpper(a) && 'd' !in a && '-' !in a
    requires DigitsValue(a) >= 1 && DigitsValue(b) >= 1
    ensures RollOf([a, b]) == Some(RangeRoll(DigitsValue(a), DigitsValue(b)))
  {
    LowerOfNoUpper(a);
    NoSeparator(a, 'd', 2, 4);
    NoSeparator(a, '-', 6, 6);
    SixDigits(a);
    SixDigits(b);
  }

  lemma SixDigits(a: string)
    requires DigitRun(a, 1, 6)
    ensures DigitsValue(a) < RollLimit
  {
    DigitsValueBound(a);
    assert Pow10(6) == RollLimit by {
      assert Pow10(1) == 10 && Pow10(2) == 100 && Pow10(3) == 1000 && Pow10(4) == 10000 && Pow10(5) == 100000;
    }
    assert Pow10(|a|) <= Pow10(6) by {
      assert Pow10(1) <= Pow10(2) <= Pow10(3) <= Pow10(4) <= Pow10(5) <= Pow10(6);
    }
  }

  /** Two numbers in 1..999,999 given as two arguments parse to that range, in the order given. */
  lemma RangeRoundTrip(lo: nat, hi: nat)
    requires 1 <= lo < RollLimit && 1 <= hi < RollLimit
    ensures ParseRollSpec([NatToString(lo), NatToString(hi)]) == Some(RangeRoll(lo, hi))
  {
    var a, b := NatToString(lo), NatToString(hi);
    NumberToken(lo);
    NumberToken(hi);
    assert Pow10(6) == RollLimit by {
      assert Pow10(1) == 10 && Pow10(2) == 100 && Pow10(3) == 1000 && Pow10(4) == 10000 && Pow10(5) == 100000;
    }
    NatToStringLength(lo, 6);
    NatToStringLength(hi, 6);
    TokensOfWords([a, b]);
    RangeRollOf(a, b);
  }

  /** `dM` of one to four digits, written without capitals, is read as one die. */
  lemma SingleDieRollOf(b: string)
    requires DigitRun(b, 1, 4) && NoUpper(b) && 2 <= DigitsValue(b) <= 1000
    ensures RollOf(["d" + b]) == Some(Dice(1, DigitsValue(b)))
  {
    var t := "d" + b;
    assert t[0] == 'd' && t[1..] == b;
    forall i | 0 <= i < |t| ensures !('A' <= t[i] <= 'Z') {
      if i > 0 { assert t[i] == b[i - 1]; }
    }
    LowerOfNoUpper(t);
    IndexOfFirst(t, 'd', 0);
  }

  /** `dM` with 2 to 1000 sides, as one argument, is one die of that many sides. */
  lemma SingleDieRoundTrip(sides: nat)
    requires 2 <= sides <= 1000
    ensures ParseRollSpec(["d" + NatToString(sides)]) == Some(Dice(1, sides))
  {
    var b := NatToString(sides);
    var t := "d" + b;
    NumberToken(sides);
    assert Pow10(4) == 10000;
    NatToStringLength(sides, 4);
    assert t[0] == 'd' && t[|t| - 1] == b[|b| - 1];
    TokensOfWords([t]);
    SingleDieRollOf(b);
  }

  /** The token `a-b` written from two numbers below the limit. */
  lemma HyphenToken(lo: nat, hi: nat)
    requires lo < RollLimit && hi < RollLimit
    ensures var a, b := NatToString(lo), NatToString(hi);
      var t := a + "-" + b;
      t != "" && Trimmed(t) && NoUpper(t) && 'd' !in t && DigitRun(a, 1, 6) && DigitRun(b, 1, 6)
  {
    var a, b := NatToString(lo), NatToString(hi);
    var t := a + "-" + b;
    NumberToken(lo);
    NumberToken(hi);
    assert Pow10(6) == RollLimit by {
      assert Pow10(1) == 10 && Pow10(2) == 100 && Pow10(3) == 1000 && Pow10(4) == 10000 && Pow10(5) == 100000;
    }
    NatToStringLength(lo, 6);
    NatToStringLength(hi, 6);
    assert t[0] == a[0] && t[|t| - 1] == b[|b| - 1];
    forall i | 0 <= i < |t| ensures !('A' <= t[i] <= 'Z') && t[i] != 'd' {
      if i < |a| { assert t[i] == a[i]; } else if i > |a| { assert t[i] == b[i - |a| - 1]; }
    }
  }

  /** `a-b` of two digit runs, each at least 1, is read as the range between them. */
  lemma HyphenRollOf(a: string, b: string)
    requires DigitRun(a, 1, 6) && DigitRun(b, 1, 6) && NoUpper(a + "-" + b) && 'd' !in a + "-" + b
    requires DigitsValue(a) >= 1 && DigitsValue(b) >= 1
    ensures RollOf([a + "-" + b]) == Some(RangeRoll(DigitsValue(a), DigitsValue(b)))
  {
    var t := a + "-" + b;
    LowerOfNoUpper(t);
    NoSeparator(t, 'd', 2, 4);
    SplitAtSeparator(a, '-', b, 6, 6);
    assert t == a + ['-'] + b;
    SixDigits(a);
    SixDigits(b);
  }

  /** One argument `a-b` of two numbers in 1..999,999 is the range between them, in the order written. */
  lemma HyphenRoundTrip(lo: nat, hi: nat)
    requires 1 <= lo < RollLimit && 1 <= hi < RollLimit
    ensures ParseRollSpec([NatToString(lo) + "-" + NatToString(hi)]) == Some(RangeRoll(lo, hi))
  {
    var a, b := NatToString(lo), NatToString(hi);
    HyphenToken(lo, hi);
    TokensOfWords([a + "-" + b]);
    HyphenRollOf(a, b);
  }

  /** A single digit run of value at least 2 is the range from 1 to it. */
  lemma UpToRollOf(a: string)
    requires DigitRun(a, 1, 6) && DigitsValue(a) >= 2
    ensures RollOf([a]) == Some(RangeRoll(1, DigitsValue(a)))
  {
    LowerOfNoUpper(a);
    NoSeparator(a, 'd', 2, 4);
    NoSeparator(a, '-', 6, 6);
    SixDigits(a);
  }

  /** A single number in 2..999,999 is the range from 1 to it. */
  lemma UpToRoundTrip(n: nat)
    requires 2 <= n < RollLimit
    ensures ParseRollSpec([NatToString(n)]) == Some(RangeRoll(1, n))
  {
    var a := NatToString(n);
    NumberToken(n);
    assert Pow10(6) == RollLimit by {
      assert Pow10(1) == 10 && Pow10(2) == 100 && Pow10(3) == 1000 && Pow10(4) == 10000 && Pow10(5) == 100000;
    }
    NatToStringLength(n, 6);
    TokensOfWords([a]);
    UpToRollOf(a);
  }

  /** A first argument `NdM` whose counts are out of bounds (`25d6`, `0d6`, `2d1`) gives no roll. */
  lemma DiceOutOfBounds(tokens: seq<string>, rolls: nat, sides: nat)
    requires tokens != [] && SplitDigits(Lower(tokens[0]), 'd', 2, 4) == Some((rolls, sides))
    requires !(1 <= rolls <= 20 && 2 <= sides <= 1000)
    ensures RollOf(tokens) == None
  {
  }

  /** A first argument `dM` whose side count is outside 2..1000 (`d1`, `d5000`) gives no roll. */
  lemma SingleDieOutOfBounds(tokens: seq<string>)
    requires tokens != [] && var a0 := Lower(tokens[0]);
      |a0| >= 1 && a0[0] == 'd' && DigitRun(a0[1..], 1, 4) && !(2 <= DigitsValue(a0[1..]) <= 1000)
    ensures RollOf(tokens) == None
  {
    var a0 := Lower(tokens[0]);
    IndexOfFirst(a0, 'd', 0);
  }

  /** A first argument `a-b` with an end of 0 gives no roll. */
  lemma HyphenOutOfBounds(tokens: seq<string>, lo: nat, hi: nat)
    requires tokens != [] && var a0 := Lower(tokens[0]);
      && SplitDigits(a0, 'd', 2, 4).None? && !(|a0| >= 1 && a0[0] == 'd' && DigitRun(a0[1..], 1, 4))
      && SplitDigits(a0, '-', 6, 6) == Some((lo, hi))
    requires lo < 1 || hi < 1
    ensures RollOf(tokens) == None
  {
  }

  /** A single number below 2 gives no roll. */
  lemma UpToOutOfBounds(t: string)
    requires DigitRun(t, 1, 6) && DigitsValue(t) < 2
    ensures RollOf([t]) == None
  {
    LowerOfNoUpper(t);
    NoSeparator(t, 'd', 2, 4);
    NoSeparator(t, '-', 6, 6);
  }

  /** A first argument that is none of the forms, and not a number, gives no roll. */
  lemma UnrecognisedRoll(tokens: seq<string>)
    requires tokens != [] && var a0 := Lower(tokens[0]);
      && SplitDigits(a0, 'd', 2, 4).None? && !(|a0| >= 1 && a0[0] == 'd' && DigitRun(a0[1..], 1, 4))
      && SplitDigits(a0, '-', 6, 6).None? && !DigitRun(tokens[0], 1, 6)
    ensures RollOf(tokens) == None
  {
  }

  /** The pieces of an uptime: days, then hours, minutes and seconds of the last day. */
  datatype Clock = Clock(days: nat, hours: nat, minutes: nat, seconds: nat)

  /** The uptime in whole seconds, counting a negative one as zero. */
  function TotalSeconds(seconds: int): nat {
    if seconds < 0 then 0 else seconds
  }

  /** The clock of an uptime: it adds up to the total, and every piece but the days is below its modulus. */
  function UptimeParts(seconds: int): (c: Clock)
    ensures c.days * 86_400 + c.hours * 3600 + c.minutes * 60 + c.seconds == TotalSeconds(seconds)
    ensures c.hours < 24 && c.minutes < 60 && c.seconds < 60
  {
    var total := TotalSeconds(seconds);
    var rem := total % 86_400;
    Clock(total / 86_400, rem / 3600, (rem % 3600) / 60, rem % 60)
  }

  /** Only one clock adds up to a given total with those bounds. */
  lemma UptimePartsUnique(seconds: int, c: Clock)
    requires c.days * 86_400 + c.hours * 3600 + c.minutes * 60 + c.seconds == TotalSeconds(seconds)
    requires c.hours < 24 && c.minutes < 60 && c.seconds < 60
    ensures c == UptimeParts(seconds)
  {
    var total := TotalSeconds(seconds);
    var low := c.hours * 3600 + c.minutes * 60 + c.seconds;
    assert 0 <= low < 86_400;
    assert c.days == total / 86_400 && low == total % 86_400;
    assert c.hours == low / 3600 && c.minutes * 60 + c.seconds == low % 3600;
    assert c.minutes == (low % 3600) / 60 && c.seconds == low % 60;
  }

  /** `String(n).padStart(2, '0')` for n below 100: exactly two digits denoting n. */
  function Pad2(n: nat): (r: string)
    requires n < 100
    ensures |r| == 2 && AllDigits(r) && DigitsValue(r) == n
  {
    if n < 10 then
      var r := "0" + NatToString(n);
      assert r[..1] == "0";
      r
    else
      assert Pow10(2) == 100;
      NatToStringLength(n, 2);
      NatToString(n)
  }

  /** `formatUptimeAr`: `hh:mm:ss`, preceded by the number of days and the word for day when there is at least one. */
  function FormatUptime(seconds: int): (r: string)
    ensures var c := UptimeParts(seconds);
      r == (if c.days > 0 then NatToString(c.days) + " يوم " else "")
           + Pad2(c.hours) + ":" + Pad2(c.minutes) + ":" + Pad2(c.seconds)
  {
    var c := UptimeParts(seconds);
    var clock := Pad2(c.hours) + ":" + Pad2(c.minutes) + ":" + Pad2(c.seconds);
    if c.days > 0 then NatToString(c.days) + " يوم " + clock else clock
  }

  /** The clock part is always the last eight characters, and a day count appears exactly from one day of uptime on. */
  lemma UptimeShape(seconds: int)
    ensures var r := FormatUptime(seconds);
      |r| >= 8 && r[|r| - 3] == ':' && r[|r| - 6] == ':'
      && (|r| == 8 <==> TotalSeconds(seconds) < 86_400)
  {
    var c := UptimeParts(seconds);
    assert c.days > 0 <==> TotalSeconds(seconds) >= 86_400;
  }
}
