/** The Python values that reach the validators and the entity fields. Python is
    dynamically typed, so a rule such as `string()` sees any object at all. */
module Values {

  datatype Value =
    | Null                                // None
    | Str(s: string)
    | Int(i: int)
    | Bool(b: bool)
    | Float(r: real)
    | List(elements: seq<Value>)
    | Dict(entries: map<string, Value>)
    | DateTime(instant: int)              // a datetime, as an opaque instant

  /** Whether Python's `len` accepts the value. */
  predicate HasLen(v: Value)
  {
    v.Str? || v.List? || v.Dict?
  }

  /** Python's `len(v)` on a value that has a length. */
  function Len(v: Value): nat
    requires HasLen(v)
  {
    match v
    case Str(s) => |s|
    case List(xs) => |xs|
    case Dict(m) => |m|
  }

  /** The name Python gives the type of a value without a length, as it
      appears in the message of the TypeError raised by `len`. */
  function TypeName(v: Value): string
    requires !HasLen(v)
  {
    match v
    case Null => "NoneType"
    case Int(_) => "int"
    case Bool(_) => "bool"
    case Float(_) => "float"
    case DateTime(_) => "datetime.datetime"
  }

  /** The message of the TypeError that `len(v)` raises. */
  function NoLenMessage(v: Value): string
    requires !HasLen(v)
  {
    "object of type '" + TypeName(v) + "' has no len()"
  }

  function DigitChar(d: nat): char
    requires d < 10
  {
    "0123456789"[d]
  }

  /** Python's `str(n)` for a natural number: decimal, no leading zero. */
  function NatToString(n: nat): (r: string)
    ensures |r| >= 1
    ensures forall k :: 0 <= k < |r| ==> '0' <= r[k] <= '9'
    ensures r[0] == '0' ==> n == 0
  {
    if n < 10 then [DigitChar(n)] else NatToString(n / 10) + [DigitChar(n % 10)]
  }

  /** Python's `int(s)` on a string of decimal digits. */
  function DecimalValue(s: string): nat
    requires forall k :: 0 <= k < |s| ==> '0' <= s[k] <= '9'
    decreases |s|
  {
    if s == [] then 0
    else DecimalValue(s[..|s| - 1]) * 10 + (s[|s| - 1] as int - '0' as int)
  }

  /** `int(str(n)) == n`: the decimal form reads back as the number. */
  lemma {:induction false} NatToStringRoundTrip(n: nat)
    ensures DecimalValue(NatToString(n)) == n
  {
    if n >= 10 {
      NatToStringRoundTrip(n / 10);
      var r := NatToString(n);
      assert r[..|r| - 1] == NatToString(n / 10);
    }
  }

  /** Python's `str(i)` for an integer. */
  function IntToString(i: int): (r: string)
    ensures |r| >= 1
    ensures r[0] == '-' <==> i < 0
  {
    if i >= 0 then NatToString(i) else "-" + NatToString(-i)
  }

  /** `int(str(i)) == i`: a sign for negative numbers, then the decimal form
      of the magnitude. */
  lemma {:induction false} IntToStringRoundTrip(i: int)
    ensures i >= 0 ==> DecimalValue(IntToString(i)) == i
    ensures i < 0 ==> DecimalValue(IntToString(i)[1..]) == -i
  {
    if i >= 0 {
      NatToStringRoundTrip(i);
    } else {
      NatToStringRoundTrip(-i);
      assert IntToString(i)[1..] == NatToString(-i);
    }
  }
}
