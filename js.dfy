/** JavaScript values as the detectors and the two command-line tools see them:
    the objects of a parsed syntax tree, the primitives stored in them, and the
    few operators of the language the tools apply to them (truthiness, `||`,
    `+ 1`, `> 0`, property reads and string conversion). */
module Js {

  /** The outcome of evaluating an expression: a value, or a thrown TypeError
      (reading a property of `null` or `undefined`). The engine's error text is
      not modelled. */
  datatype Completion<+T> = Normal(value: T) | Abrupt {
    predicate IsFailure() {
      Abrupt?
    }

    function PropagateFailure<U>(): Completion<U> {
      Abrupt
    }

    function Extract(): T
      requires Normal?
    {
      value
    }
  }

  lemma AppendAssoc<T>(a: seq<T>, b: seq<T>, c: seq<T>)
    ensures a + b + c == a + (b + c)
  {
  }

  datatype Option<+T> = None | Some(value: T) {
    function GetOr(default: T): T {
      match this
      case Some(v) => v
      case None => default
    }
  }

  /** A JavaScript value. An object is a plain data object: its own properties
      in enumeration order. Numbers are integers (only integer-valued numbers
      occur in what is modelled: positions, lengths, severities). */
  datatype Value =
    | Undefined
    | Null
    | Boolean(b: bool)
    | Num(n: int)
    | NaN
    | Str(s: string)
    | Arr(items: seq<Value>)
    | Obj(fields: seq<(string, Value)>)

  /** `typeof v === 'object' && v` : the values `traverse` descends into. */
  predicate IsObject(v: Value) {
    v.Arr? || v.Obj?
  }

  /** JavaScript truthiness. */
  predicate Truthy(v: Value) {
    match v
    case Undefined => false
    case Null => false
    case NaN => false
    case Boolean(b) => b
    case Num(n) => n != 0
    case Str(s) => s != ""
    case Arr(_) => true
    case Obj(_) => true
  }

  /** `a || b` */
  function Or(a: Value, b: Value): Value {
    if Truthy(a) then a else b
  }

  /** The value of the first own property named `key`, `undefined` if none. */
  function Lookup(fields: seq<(string, Value)>, key: string): (r: Value)
    ensures (forall i :: 0 <= i < |fields| ==> fields[i].0 != key) ==> r == Undefined
    ensures forall i :: 0 <= i < |fields| && fields[i].0 == key && (forall j :: 0 <= j < i ==> fields[j].0 != key) ==>
      r == fields[i].1
  {
    if fields == [] then Undefined
    else if fields[0].0 == key then fields[0].1
    else
      Lookup(fields[1..], key)
  }

  /** The value of `v.key` for a `v` that is neither `null` nor `undefined`,
      for the property names the tools read (`type`, `name`, `callee`,
      `arguments`, `length`, `value`, `loc`, ...): none of them is inherited by
      strings, arrays, numbers or plain objects except `length`. */
  function Property(v: Value, key: string): (r: Value)
    ensures v.Obj? ==> r == Lookup(v.fields, key)
    ensures !IsObject(v) && !v.Str? ==> r == Undefined
  {
    match v
    case Obj(fs) => Lookup(fs, key)
    case Arr(xs) => if key == "length" then Num(|xs|) else Undefined
    case Str(s) => if key == "length" then Num(|s|) else Undefined
    case _ => Undefined
  }

  /** `v.key`: a TypeError when `v` is `null` or `undefined`. */
  function Get(v: Value, key: string): (r: Completion<Value>)
    ensures r.Abrupt? <==> (v == Undefined || v == Null)
    ensures r.Normal? ==> r.value == Property(v, key)
  {
    if v == Undefined || v == Null then Abrupt else Normal(Property(v, key))
  }

  /** The value of `v[i]` for a `v` that is neither `null` nor `undefined`. */
  function Element(v: Value, i: nat): (r: Value)
    ensures v.Arr? ==> r == if i < |v.items| then v.items[i] else Undefined
  {
    match v
    case Arr(xs) => if i < |xs| then xs[i] else Undefined
    case Str(s) => if i < |s| then Str([s[i]]) else Undefined
    case Obj(fs) => Lookup(fs, NatToString(i))
    case _ => Undefined
  }

  /** `v[i]`: a TypeError when `v` is `null` or `undefined`. */
  function Index(v: Value, i: nat): (r: Completion<Value>)
    ensures r.Abrupt? <==> (v == Undefined || v == Null)
    ensures r.Normal? ==> r.value == Element(v, i)
  {
    if v == Undefined || v == Null then Abrupt else Normal(Element(v, i))
  }

  /** `v > 0`. A string, array or object operand is first converted to a
      number by JavaScript; that conversion is not modelled and such a
      comparison is taken to be false. */
  predicate IsPositive(v: Value) {
    match v
    case Num(n) => n > 0
    case Boolean(b) => b
    case _ => false
  }

  function Digit(d: nat): char
    requires d < 10
  {
    "0123456789"[d]
  }

  /** Decimal notation of a natural number. */
  function NatToString(n: nat): (r: string)
    ensures |r| > 0
    ensures forall i :: 0 <= i < |r| ==> '0' <= r[i] <= '9'
    decreases n
  {
    if n < 10 then [Digit(n)] else NatToString(n / 10) + [Digit(n % 10)]
  }

  /** The decimal number a string of digits spells. */
  function DigitsValue(s: string): int
    decreases |s|
  {
    if s == [] then 0 else 10 * DigitsValue(s[..|s| - 1]) + (s[|s| - 1] as int - '0' as int)
  }

  lemma {:induction false} NatToStringRoundTrip(n: nat)
    ensures DigitsValue(NatToString(n)) == n
    decreases n
  {
    var r := NatToString(n);
    if n >= 10 {
      NatToStringRoundTrip(n / 10);
      assert r[..|r| - 1] == NatToString(n / 10);
      assert "0123456789"[n % 10] as int - '0' as int == n % 10;
    } else {
      assert r == [Digit(n)];
      assert "0123456789"[n] as int - '0' as int == n;
    }
  }

  /** `String(v)`, as template literals and `+` on a string use it. */
  function ToString(v: Value): string
    decreases v
  {
    match v
    case Undefined => "undefined"
    case Null => "null"
    case NaN => "NaN"
    case Boolean(b) => if b then "true" else "false"
    case Num(n) => if n < 0 then "-" + NatToString(-n) else NatToString(n)
    case Str(s) => s
    case Obj(_) => "[object Object]"
    case Arr(xs) =>
      // Array.prototype.join(","): null and undefined elements become ""
      JoinWithComma(seq(|xs|, i requires 0 <= i < |xs| =>
        if xs[i] == Null || xs[i] == Undefined then "" else ToString(xs[i])))
  }

  function JoinWithComma(parts: seq<string>): string {
    if parts == [] then "" else if |parts| == 1 then parts[0] else parts[0] + "," + JoinWithComma(parts[1..])
  }

  /** `v + 1`: arithmetic on a number, `NaN` on `undefined`, and string
      concatenation on a string. A 0-based position becomes a truthy 1-based
      one. */
  function AddOne(v: Value): (r: Value)
    ensures v.Num? ==> r == Num(v.n + 1)
    ensures v.Num? && v.n >= 0 ==> Truthy(r)
    ensures v == Undefined ==> r == NaN
    ensures v.Str? ==> r == Str(v.s + "1")
  {
    match v
    case Num(n) => Num(n + 1)
    case Undefined => NaN
    case NaN => NaN
    case Null => Num(1)
    case Boolean(b) => Num(if b then 2 else 1)
    case Str(s) => Str(s + "1")
    case _ => Str(ToString(v) + "1")
  }
}
