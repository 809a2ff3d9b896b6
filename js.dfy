/**
 * The JavaScript values a request carries and the few pieces of JavaScript
 * semantics the middlewares rely on: truthiness, `Number.isInteger`, the
 * `length` property and the relational operators against a number.
 */
module Js {
  import opened Wrappers

  /**
   * A primitive JSON value as read from a request; `Undefined` is an absent
   * field. NaN, -0 and the infinities are not represented.
   */
  datatype JsValue = Undefined | Null | Bool(b: bool) | Num(n: real) | Str(s: string)

  /** JavaScript `!v`. */
  predicate Falsy(v: JsValue)
  {
    match v
    case Undefined => true
    case Null => true
    case Bool(b) => !b
    case Num(n) => n == 0.0
    case Str(s) => s == ""
  }

  /** `Number.isInteger(v)`: only numbers with no fractional part. */
  predicate IsInteger(v: JsValue)
  {
    v.Num? && v.n == v.n.Floor as real
  }

  /** `v.length`: the length of a string, `undefined` (None) for every other primitive. */
  function LengthOf(v: JsValue): Option<int>
  {
    if v.Str? then Some(|v.s|) else None
  }

  predicate IsDigit(c: char)
  {
    '0' <= c <= '9'
  }

  predicate AllDigits(s: string)
  {
    forall k :: 0 <= k < |s| ==> IsDigit(s[k])
  }

  /** The decimal value of a string of digits. */
  function DecimalValue(s: string): nat
    requires AllDigits(s)
  {
    if s == [] then 0
    else DecimalValue(s[..|s| - 1]) * 10 + (s[|s| - 1] as int - '0' as int)
  }

  /**
   * ToNumber of a primitive; None stands for NaN. Strings are read only in
   * the empty and the digit-only forms; every other string is NaN here.
   */
  function ToNumber(v: JsValue): Option<real>
  {
    match v
    case Undefined => None
    case Null => Some(0.0)
    case Bool(b) => Some(if b then 1.0 else 0.0)
    case Num(n) => Some(n)
    case Str(s) =>
      if s == "" then Some(0.0)
      else if AllDigits(s) then Some(DecimalValue(s) as real)
      else None
  }

  /** `v < k` for a number k; a NaN operand compares false. */
  predicate LessThan(v: JsValue, k: real)
  {
    match ToNumber(v)
    case Some(x) => x < k
    case None => false
  }

  /** `v > k` for a number k. */
  predicate GreaterThan(v: JsValue, k: real)
  {
    match ToNumber(v)
    case Some(x) => x > k
    case None => false
  }

  /** `v >= k` for a number k. */
  predicate AtLeast(v: JsValue, k: real)
  {
    match ToNumber(v)
    case Some(x) => x >= k
    case None => false
  }
}
