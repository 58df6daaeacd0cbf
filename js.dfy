/**
 * The JavaScript values that flow through the server: parsed JSON request
 * bodies and DocuSign and Brightpearl responses, plus `undefined` for a missing property.
 * Numbers are integral; the operators the server applies to them are written
 * out with JavaScript's semantics.
 */
module Js {
  import Text
  import Decimal
  import Wrappers

  datatype Value =
    | Undefined
    | Null
    | Bool(b: bool)
    | Num(n: int)
    | Str(s: string)
    | Arr(items: seq<Value>)
    | Obj(props: map<string, Value>)

  /** What a JavaScript statement can throw here. */
  datatype Exception =
    | TypeError           // property access or method call on null or undefined
    | Error(message: string)

  predicate Nullish(v: Value)
  {
    v.Undefined? || v.Null?
  }

  /** JavaScript's ToBoolean: false, 0, "", null and undefined are falsy. */
  predicate Truthy(v: Value)
  {
    match v
    case Undefined => false
    case Null => false
    case Bool(b) => b
    case Num(n) => n != 0
    case Str(s) => s != ""
    case Arr(_) => true
    case Obj(_) => true
  }

  lemma TruthyIsNotNullish(v: Value)
    ensures Truthy(v) ==> !Nullish(v)
  {
  }

  /** `a || b`: `a` when it is truthy, `b` otherwise. */
  function Or(a: Value, b: Value): (r: Value)
    ensures r == a || r == b
    ensures Truthy(r) <==> Truthy(a) || Truthy(b)
    ensures Truthy(a) ==> r == a
    ensures !Truthy(a) ==> r == b
  {
    if Truthy(a) then a else b
  }

  /** `v.key` on a value that is not null or undefined (on those it throws). */
  function Prop(v: Value, key: string): Value
    requires !Nullish(v)
  {
    if v.Obj? && key in v.props then v.props[key] else Undefined
  }

  /** `v?.key`: undefined when `v` is null or undefined. */
  function OptionalProp(v: Value, key: string): (r: Value)
    ensures Nullish(v) ==> r == Undefined
    ensures !Nullish(v) ==> r == Prop(v, key)
  {
    if Nullish(v) then Undefined else Prop(v, key)
  }

  /**
   * `v[0]` on a value that is not null or undefined: an array's first element,
   * a string's first character, an object's property "0", and otherwise
   * (numbers, booleans, empty arrays and strings) undefined.
   */
  function Index0(v: Value): (r: Value)
    requires !Nullish(v)
    ensures v.Arr? && |v.items| > 0 ==> r == v.items[0]
    ensures v.Str? && |v.s| > 0 ==> r.Str? && |r.s| == 1 && Text.StartsWith(v.s, r.s)
    ensures v.Obj? && "0" in v.props ==> r == v.props["0"]
    ensures !(v.Arr? && |v.items| > 0) && !(v.Str? && |v.s| > 0) && !(v.Obj? && "0" in v.props) ==>
      r == Undefined
  {
    match v
    case Arr(items) => if |items| > 0 then items[0] else Undefined
    case Str(s) => if |s| > 0 then Str([s[0]]) else Undefined
    case Obj(props) => if "0" in props then props["0"] else Undefined
    case _ => Undefined
  }

  /**
   * `String(v)`. An array renders as `Array.prototype.join(",")` of its
   * elements, where null and undefined elements render as "".
   */
  function ToString(v: Value): (s: string)
    ensures v.Num? ==> Decimal.ParseInt(s) == Wrappers.Some(v.n) && ',' !in s
    ensures v.Str? ==> s == v.s
    ensures v.Arr? && |v.items| == 0 ==> s == ""
    ensures v.Arr? && |v.items| == 1 && !Nullish(v.items[0]) ==> s == ToString(v.items[0])
  {
    match v
    case Undefined => "undefined"
    case Null => "null"
    case Bool(b) => if b then "true" else "false"
    case Num(n) =>
      Decimal.IntToStringRoundTrip(n);
      Decimal.IntToStringCharacters(n);
      Decimal.IntToString(n)
    case Str(s) => s
    case Arr(items) =>
      Text.Join(seq(|items|, i requires 0 <= i < |items| =>
        if Nullish(items[i]) then "" else ToString(items[i])), ",")
    case Obj(_) => "[object Object]"
  }

  /** How `Array.prototype.join` renders one element. */
  function ElementString(v: Value): (s: string)
    ensures Nullish(v) ==> s == ""
  {
    if Nullish(v) then "" else ToString(v)
  }

  /** An array renders as the join of its elements' renderings. */
  lemma ArrayToString(items: seq<Value>)
    ensures ToString(Arr(items)) == Text.Join(seq(|items|, i requires 0 <= i < |items| => ElementString(items[i])), ",")
  {
    assert seq(|items|, i requires 0 <= i < |items| => ElementString(items[i]))
        == seq(|items|, i requires 0 <= i < |items| => if Nullish(items[i]) then "" else ToString(items[i]));
  }

  /**
   * `v + k` for a number `k`: numeric addition when `v` converts to a number,
   * string concatenation when `v` is a string, an array or an object.
   * (`undefined + k` is NaN, which is not modelled; the server never adds to undefined.)
   */
  function AddNumber(v: Value, k: int): (r: Value)
    requires !v.Undefined?
    ensures v.Num? ==> r == Num(v.n + k)
    ensures v.Str? ==> r == Str(v.s + Decimal.IntToString(k))
  {
    match v
    case Null => Num(k)
    case Bool(b) => Num((if b then 1 else 0) + k)
    case Num(n) => Num(n + k)
    case Str(s) => Str(s + Decimal.IntToString(k))
    case Arr(_) => Str(ToString(v) + Decimal.IntToString(k))
    case Obj(_) => Str(ToString(v) + Decimal.IntToString(k))
  }
}
