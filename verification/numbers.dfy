/**
 * JavaScript numbers, as far as the chart arithmetic needs them.
 *
 * Finite values are exact reals (IEEE-754 rounding and signed zero are not modelled). What is
 * modelled is the part of IEEE-754 that the chart code runs into: dividing by zero gives an
 * infinity or NaN instead of failing, and these values then flow through `+`, `-` and `*`.
 */
module JsNumber {

  datatype Num = Fin(v: real) | PosInf | NegInf | NaN

  /** The sign of a number that is not NaN: -1, 0 or 1. */
  function Sign(a: Num): (s: int)
    requires !a.NaN?
    ensures -1 <= s <= 1
    ensures a.PosInf? ==> s == 1
    ensures a.NegInf? ==> s == -1
  {
    match a
    case Fin(v) => if v > 0.0 then 1 else if v < 0.0 then -1 else 0
    case PosInf => 1
    case NegInf => -1
  }

  /** Unary minus. */
  function Neg(a: Num): Num {
    match a
    case Fin(v) => Fin(-v)
    case PosInf => NegInf
    case NegInf => PosInf
    case NaN => NaN
  }

  /** JavaScript `a + b`. */
  function Add(a: Num, b: Num): (r: Num)
    ensures r.Fin? <==> a.Fin? && b.Fin?
    ensures a.NaN? || b.NaN? ==> r.NaN?
    ensures (a.PosInf? && b.NegInf?) || (a.NegInf? && b.PosInf?) ==> r.NaN?
  {
    if a.NaN? || b.NaN? then NaN
    else if a.Fin? && b.Fin? then Fin(a.v + b.v)
    else if a.Fin? then b
    else if b.Fin? || a == b then a
    else NaN
  }

  /** JavaScript `a - b`. */
  function Sub(a: Num, b: Num): (r: Num)
    ensures r.Fin? <==> a.Fin? && b.Fin?
    ensures a.NaN? || b.NaN? ==> r.NaN?
  {
    Add(a, Neg(b))
  }

  /** JavaScript `a * b`. */
  function Mul(a: Num, b: Num): (r: Num)
    ensures r.Fin? <==> a.Fin? && b.Fin?
    ensures a.NaN? || b.NaN? ==> r.NaN?
    ensures !a.Fin? && b == Fin(0.0) ==> r.NaN?
    ensures a == Fin(0.0) && !b.Fin? ==> r.NaN?
  {
    if a.NaN? || b.NaN? then NaN
    else if a.Fin? && b.Fin? then Fin(a.v * b.v)
    else if Sign(a) == 0 || Sign(b) == 0 then NaN
    else if Sign(a) == Sign(b) then PosInf
    else NegInf
  }

  /**
   * JavaScript `a / b` on two finite operands. A zero divisor gives an infinity with the sign
   * of the dividend, or NaN when the dividend is zero too.
   */
  function Div(a: real, b: real): (r: Num)
    ensures r.Fin? <==> b != 0.0
    ensures r.Fin? ==> r.v * b == a
    ensures b == 0.0 ==> (r.NaN? <==> a == 0.0)
    ensures b == 0.0 && a > 0.0 ==> r.PosInf?
    ensures b == 0.0 && a < 0.0 ==> r.NegInf?
  {
    if b != 0.0 then Fin(a / b)
    else if a > 0.0 then PosInf
    else if a < 0.0 then NegInf
    else NaN
  }
}
