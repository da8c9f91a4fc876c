/**
 * The JSON values the store document is made of, with the JavaScript coercions
 * the normalisers apply to them: property lookup, `String(v)` and `Number(v)`.
 * Numbers are integers. An object is the list of its own properties in
 * insertion order; a genuine object has each key once, and lookup takes the
 * first pair with the key.
 */
module JsonValue {
  import opened Wrappers
  import opened Text

  datatype Json =
    | JNull
    | JBool(b: bool)
    | JNum(n: int)
    | JStr(s: string)
    | JArr(items: seq<Json>)
    | JObj(entries: seq<(string, Json)>)

  /** `v && typeof v === 'object'`: arrays and objects. */
  predicate IsObject(v: Json) {
    v.JArr? || v.JObj?
  }

  /** The value of the first pair with `key`. */
  function Lookup(entries: seq<(string, Json)>, key: string): Option<Json> {
    if entries == [] then None
    else if entries[0].0 == key then Some(entries[0].1)
    else Lookup(entries[1..], key)
  }

  /** Lookup finds a value exactly when some pair has the key, and the value is that of the first such pair. */
  lemma {:induction false} LookupSpec(entries: seq<(string, Json)>, key: string)
    ensures Lookup(entries, key).None? <==> forall k :: 0 <= k < |entries| ==> entries[k].0 != key
    ensures Lookup(entries, key).Some? ==> exists k :: (0 <= k < |entries| && entries[k] == (key, Lookup(entries, key).value)
      && forall i :: 0 <= i < k ==> entries[i].0 != key)
    decreases |entries|
  {
    if entries != [] && entries[0].0 != key {
      LookupSpec(entries[1..], key);
      assert forall k :: 1 <= k < |entries| ==> entries[k] == entries[1..][k - 1];
      if Lookup(entries, key).Some? {
        var k :| 0 <= k < |entries[1..]| && entries[1..][k] == (key, Lookup(entries, key).value)
          && forall i :: 0 <= i < k ==> entries[1..][i].0 != key;
        assert entries[k + 1] == entries[1..][k];
      }
    }
  }

  /** The pair at `i` is the first with its key, so lookup returns its value. */
  lemma {:induction false} LookupAt(entries: seq<(string, Json)>, i: nat, key: string)
    requires i < |entries| && entries[i].0 == key
    requires forall j :: 0 <= j < i ==> entries[j].0 != key
    ensures Lookup(entries, key) == Some(entries[i].1)
    decreases i
  {
    if i > 0 {
      LookupAt(entries[1..], i - 1, key);
    }
  }

  /** Looking up in two lists of pairs one after the other. */
  lemma {:induction false} LookupAppend(a: seq<(string, Json)>, b: seq<(string, Json)>, key: string)
    ensures Lookup(a + b, key) == if Lookup(a, key).Some? then Lookup(a, key) else Lookup(b, key)
    decreases |a|
  {
    if a != [] {
      assert (a + b)[0] == a[0] && (a + b)[1..] == a[1..] + b;
      LookupAppend(a[1..], b, key);
    } else {
      assert a + b == b;
    }
  }

  /** The own property `key` of a value (`v[key]`, absent as `None`); arrays have none of the keys the store uses. */
  function Get(v: Json, key: string): Option<Json> {
    if v.JObj? then Lookup(v.entries, key) else None
  }

  /** `String(v)` inside an array: `null` elements render as nothing. */
  function ElementText(v: Json): string
    decreases v, 1
  {
    if v.JNull? then "" else ToText(v)
  }

  /** The elements of an array rendered and joined by commas (`String([a, b])`). */
  function ElementsText(items: seq<Json>): string
    decreases items, 0
  {
    if |items| == 0 then ""
    else if |items| == 1 then ElementText(items[0])
    else ElementText(items[0]) + "," + ElementsText(items[1..])
  }

  /** `String(v)`. */
  function ToText(v: Json): string
    decreases v, 0
  {
    match v
    case JNull => "null"
    case JBool(b) => if b then "true" else "false"
    case JNum(n) => IntToString(n)
    case JStr(s) => s
    case JArr(items) => ElementsText(items)
    case JObj(_) => "[object Object]"
  }

  /** `String(v ?? '')`. */
  function TextOrEmpty(v: Option<Json>): string {
    if v.None? || v.value.JNull? then "" else ToText(v.value)
  }

  /**
   * `Number(s)` for the decimal integer notations: a blank string is 0, otherwise
   * an optional sign and digits, surrounded by white space; anything else is
   * "not a finite number" (`None`).
   */
  function StringToNumber(s: string): (r: Option<int>)
    ensures NoSpace(s) && s != [] && AllDigits(s) ==> r == Some(DigitsValue(s))
  {
    var t := Trim(s);
    if t == "" then Some(0)
    else if t[0] == '-' && |t| > 1 && AllDigits(t[1..]) then Some(0 - DigitsValue(t[1..]) as int)
    else if t[0] == '+' && |t| > 1 && AllDigits(t[1..]) then Some(DigitsValue(t[1..]))
    else if AllDigits(t) then
      assert NoSpace(s) && s != [] && AllDigits(s) ==> t == s by {
        if NoSpace(s) && s != [] {
          TrimOfTrimmed(s);
        }
      }
      Some(DigitsValue(t))
    else
      assert NoSpace(s) && s != [] ==> t == s by {
        if NoSpace(s) && s != [] {
          TrimOfTrimmed(s);
        }
      }
      None
  }

  /** `Number(v)` when finite; `None` for a value that converts to `NaN`. */
  function ToNumber(v: Json): Option<int> {
    match v
    case JNull => Some(0)
    case JBool(b) => Some(if b then 1 else 0)
    case JNum(n) => Some(n)
    case JStr(s) => StringToNumber(s)
    case JArr(_) => StringToNumber(ToText(v))
    case JObj(_) => None
  }

  /** A string holding a rendered natural number converts to that number. */
  lemma NumberOfRendered(n: nat)
    ensures ToNumber(JStr(NatToString(n))) == Some(n)
  {
    var s := NatToString(n);
    assert NoSpace(s) by {
      assert forall i :: 0 <= i < |s| ==> IsDigit(s[i]);
    }
  }
}
