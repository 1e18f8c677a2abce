/**
 * The JavaScript values the request builder handles, with the three coercions
 * it relies on: truthiness (`if (x)`, `!x`), loose equality with zero
 * (`x == 0`) and string conversion (`String(x)`, `x.toString()`).
 * Numbers are integers or NaN; fractional numbers are not modelled.
 */
module Js {
  import opened Wrappers

  datatype Val =
    | Undefined
    | Null
    | Bool(b: bool)
    | Num(n: int)
    | NaN
    | Str(s: string)
    | Arr(elems: seq<Val>)
    | Obj(props: seq<Prop>)

  /** An own enumerable property of a plain object, in the order `Object.keys` lists it. */
  datatype Prop = Prop(key: string, value: Val)

  /** JavaScript's ToBoolean. Arrays and objects are truthy even when empty. */
  predicate Truthy(v: Val)
  {
    match v
    case Undefined => false
    case Null => false
    case Bool(b) => b
    case Num(n) => n != 0
    case NaN => false
    case Str(s) => s != ""
    case Arr(_) => true
    case Obj(_) => true
  }

  /**
   * `v == 0` with JavaScript's loose equality, for the falsy values only (the
   * source evaluates it only after `v` was found falsy): `''` and `false` convert
   * to 0, `undefined`, `null` and NaN are equal to nothing numeric.
   */
  predicate FalsyLooseEqualsZero(v: Val)
    requires !Truthy(v)
  {
    match v
    case Bool(_) => true
    case Num(_) => true
    case Str(_) => true
    case _ => false
  }

  /** `v === undefined || v === null`, the values on which property access throws. */
  predicate Nullish(v: Val)
  {
    v.Undefined? || v.Null?
  }

  function DigitChar(d: nat): (c: char)
    requires d < 10
    ensures '0' <= c <= '9'
  {
    ('0' as int + d) as char
  }

  /** Decimal digits of a natural number, most significant first, no leading zeros. */
  function NatToString(n: nat): (s: string)
    ensures |s| > 0
    ensures forall i :: 0 <= i < |s| ==> '0' <= s[i] <= '9'
    decreases n
  {
    if n < 10 then [DigitChar(n)] else NatToString(n / 10) + [DigitChar(n % 10)]
  }

  /** Distinct numbers have distinct decimal representations. */
  lemma {:induction false} NatToStringInjective(a: nat, b: nat)
    requires NatToString(a) == NatToString(b)
    ensures a == b
    decreases a
  {
    var s := NatToString(a);
    if a >= 10 && b >= 10 {
      assert s[..|s| - 1] == NatToString(a / 10);
      assert NatToString(b)[..|s| - 1] == NatToString(b / 10);
      NatToStringInjective(a / 10, b / 10);
      assert DigitChar(a % 10) == s[|s| - 1] == DigitChar(b % 10);
    } else {
      assert |NatToString(a)| == 1 || |NatToString(b)| == 1;
      assert |NatToString(a / 10)| >= 1 && |NatToString(b / 10)| >= 1;
      assert a < 10 && b < 10;
      assert DigitChar(a) == s[0] == DigitChar(b);
    }
  }

  /** `String(n)` for an integer. */
  function IntToString(n: int): string
  {
    if n < 0 then "-" + NatToString(-n) else NatToString(n)
  }

  /**
   * `String(v)`; for arrays this is `Array.prototype.join(',')`, which writes
   * `undefined` and `null` elements as the empty string.
   */
  function ToStr(v: Val): string
  {
    match v
    case Undefined => "undefined"
    case Null => "null"
    case Bool(b) => if b then "true" else "false"
    case Num(n) => IntToString(n)
    case NaN => "NaN"
    case Str(s) => s
    case Arr(elems) =>
      JoinWithComma(seq(|elems|, i requires 0 <= i < |elems| =>
        if Nullish(elems[i]) then "" else ToStr(elems[i])))
    case Obj(_) => "[object Object]"
  }

  function JoinWithComma(parts: seq<string>): string
  {
    if parts == [] then ""
    else if |parts| == 1 then parts[0]
    else parts[0] + "," + JoinWithComma(parts[1..])
  }

  /**
   * `v[key]` for a value that is not nullish: the first own property of a plain
   * object with that key, and `undefined` otherwise (inherited properties and
   * the own properties of arrays and primitives are not modelled).
   */
  function Get(v: Val, key: string): (r: Val)
    requires !Nullish(v)
    ensures !v.Obj? ==> r == Undefined
    ensures v.Obj? && r != Undefined ==> exists i :: 0 <= i < |v.props| && v.props[i] == Prop(key, r)
  {
    if v.Obj? then Lookup(v.props, key) else Undefined
  }

  function Lookup(props: seq<Prop>, key: string): (r: Val)
    ensures r != Undefined ==> exists i :: 0 <= i < |props| && props[i] == Prop(key, r)
    ensures (forall i :: 0 <= i < |props| ==> props[i].key != key) ==> r == Undefined
  {
    if props == [] then Undefined
    else if props[0].key == key then props[0].value
    else Lookup(props[1..], key)
  }

  /** An entry whose key no earlier entry has is what the lookup finds. */
  lemma {:induction false} LookupFirst(props: seq<Prop>, key: string, k: nat)
    requires k < |props| && props[k].key == key
    requires forall j :: 0 <= j < k ==> props[j].key != key
    ensures Lookup(props, key) == props[k].value
  {
    if k > 0 {
      LookupFirst(props[1..], key, k - 1);
    }
  }

  /** The value stored under `name` in a parameter record; a missing key reads as `undefined`. */
  function Field(record: map<string, Val>, name: string): (r: Val)
    ensures name !in record ==> r == Undefined
  {
    if name in record then record[name] else Undefined
  }
}
