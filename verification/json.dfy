/** JSON values as `JSON.parse` produces them, with the JavaScript
    coercions the handlers apply to them: property access, truthiness and
    `Number(...)`. Numbers are integers here. */
module Json {
  import opened Base
  import Strings
  import Decimal

  datatype Json =
    | JNull
    | JBool(b: bool)
    | JNum(n: int)
    | JStr(s: string)
    | JArr(items: seq<Json>)
    | JObj(members: seq<(string, Json)>)

  /** The value of the last member named `key`; `JSON.parse` keeps the last
      of duplicated keys. */
  function LastMember(ms: seq<(string, Json)>, key: string): Option<Json>
    decreases |ms|
  {
    if ms == [] then None
    else if ms[|ms| - 1].0 == key then Some(ms[|ms| - 1].1)
    else LastMember(ms[..|ms| - 1], key)
  }

  /** `v.key` on a non-null value: a member of an object, `undefined`
      (`None`) on anything else. */
  function Get(v: Json, key: string): Option<Json>
    requires !v.JNull?
  {
    match v
    case JObj(ms) => LastMember(ms, key)
    case _ => None
  }

  /** JavaScript truthiness of a possibly `undefined` value. */
  predicate Truthy(v: Option<Json>) {
    match v
    case None => false
    case Some(JNull) => false
    case Some(JBool(b)) => b
    case Some(JNum(n)) => n != 0
    case Some(JStr(s)) => s != ""
    case Some(JArr(_)) => true
    case Some(JObj(_)) => true
  }

  /** `Number(s)` on a string: surrounding whitespace is ignored, the empty
      string is 0, otherwise an optional sign and decimal digits; `None` is
      `NaN`. */
  function StringToNumber(s: string): Option<int> {
    var t := Strings.Trim(s);
    if t == "" then Some(0)
    else
      var b := if t[0] == '-' || t[0] == '+' then 1 else 0;
      if b < |t| && Decimal.AllDigits(t[b..]) then
        var v: int := Decimal.DigitsValue(t[b..]);
        Some(if t[0] == '-' then -v else v)
      else None
  }

  /** `Number(v)`; `None` is `NaN`. `Number(undefined)` is `NaN`,
      `Number(null)` is 0, booleans are 0 or 1. */
  function ToNumber(v: Option<Json>): Option<int> {
    match v
    case None => None
    case Some(JNull) => Some(0)
    case Some(JBool(b)) => Some(if b then 1 else 0)
    case Some(JNum(n)) => Some(n)
    case Some(JStr(s)) => StringToNumber(s)
    case Some(JArr(_)) => None
    case Some(JObj(_)) => None
  }

  /** `Number(x) || d`: the number when it is neither 0 nor `NaN`. */
  function NumberOr(v: Option<Json>, d: int): (r: int)
    ensures ToNumber(v) !in {None, Some(0)} ==> Some(r) == ToNumber(v)
    ensures ToNumber(v) in {None, Some(0)} ==> r == d
  {
    match ToNumber(v)
    case Some(n) => if n != 0 then n else d
    case None => d
  }

  /** A number written in decimal, as a JSON string, coerces back to itself. */
  lemma {:induction false} StringToNumberNatToString(n: nat)
    ensures StringToNumber(Decimal.NatToString(n)) == Some(n)
  {
    var r := Decimal.NatToString(n);
    assert !Strings.IsSpace(r[0]) && !Strings.IsSpace(r[|r| - 1]);
    Strings.TrimUnchanged(r);
    assert r[0..] == r;
    Decimal.NatToStringValue(n);
  }
}
