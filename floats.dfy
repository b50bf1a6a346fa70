/** numpy float64 arithmetic as computeData uses it, with rounding left out:
    a value is an exact real, a signed infinity or NaN. Division by zero and
    arcsin outside [-1, 1] give NaN or an infinity, as numpy does, rather
    than raising. The square root, arcsin and pi are inputs (`MathLib`). */
module Floats {

  datatype Float = Num(v: real) | Inf(negative: bool) | NaN

  /** np.sqrt, np.arcsin and np.pi. */
  datatype MathLib = MathLib(sqrt: real -> real, arcsin: real -> real, pi: real)

  /** The square-root input is the non-negative square root on the
      non-negative reals; its value at 0 is stated on its own. */
  ghost predicate IsSqrt(sqrt: real -> real) {
    && sqrt(0.0) == 0.0
    && forall x: real :: 0.0 <= x ==> 0.0 <= sqrt(x) && sqrt(x) * sqrt(x) == x
  }

  /** The sign of a non-NaN value, as a flag "negative". */
  function Negative(a: Float): bool
    requires !a.NaN?
  {
    if a.Num? then a.v < 0.0 else a.negative
  }

  function IsZero(a: Float): bool {
    a.Num? && a.v == 0.0
  }

  /** Multiplication; 0 * inf is NaN, otherwise the signs combine. */
  function Mul(a: Float, b: Float): (r: Float)
    ensures r.NaN? <==> a.NaN? || b.NaN? || (IsZero(a) && b.Inf?) || (a.Inf? && IsZero(b))
    ensures r.Inf? <==> !r.NaN? && (a.Inf? || b.Inf?)
    ensures r.Inf? ==> !a.NaN? && !b.NaN? && r.negative == (Negative(a) != Negative(b))
    ensures a.Num? && b.Num? ==> r.Num?
  {
    if a.NaN? || b.NaN? then NaN
    else if a.Num? && b.Num? then Num(a.v * b.v)
    else if IsZero(a) || IsZero(b) then NaN
    else Inf(Negative(a) != Negative(b))
  }

  /** Division; a zero divisor gives NaN for 0/0 and an infinity otherwise,
      inf/inf is NaN and a number over an infinity is 0. */
  function Div(a: Float, b: Float): (r: Float)
    ensures r.NaN? <==> a.NaN? || b.NaN? || (IsZero(a) && IsZero(b)) || (a.Inf? && b.Inf?)
    ensures r.Inf? <==> (a.Inf? && b.Num?) || (a.Num? && a.v != 0.0 && IsZero(b))
    ensures r.Inf? ==> !a.NaN? && !b.NaN? && r.negative == (Negative(a) != Negative(b))
    ensures a.Num? && b.Num? && b.v != 0.0 ==> r.Num?
    ensures a.Num? && b.Inf? ==> r == Num(0.0)
  {
    if a.NaN? || b.NaN? then NaN
    else if a.Num? && b.Num? then
      if b.v != 0.0 then Num(a.v / b.v)
      else if a.v == 0.0 then NaN
      else Inf(a.v < 0.0)
    else if a.Num? then Num(0.0)
    else if b.Num? then Inf(a.negative != (b.v < 0.0))
    else NaN
  }

  /** Subtraction; inf - inf of the same sign is NaN. */
  function Minus(a: Float, b: Float): (r: Float)
    ensures r.NaN? <==> a.NaN? || b.NaN? || (a.Inf? && b.Inf? && a.negative == b.negative)
    ensures a.Num? && b.Num? ==> r.Num? && r.v + b.v == a.v
    ensures r.Inf? ==> if a.Inf? then r.negative == a.negative else r.negative == !b.negative
  {
    if a.NaN? || b.NaN? then NaN
    else if a.Num? && b.Num? then Num(a.v - b.v)
    else if a.Num? then Inf(!b.negative)
    else if b.Num? || a.negative != b.negative then Inf(a.negative)
    else NaN
  }

  /** np.sqrt of a non-negative integer. */
  function Sqrt(m: MathLib, n: nat): Float {
    Num(m.sqrt(n as real))
  }

  /** np.arcsin: NaN outside [-1, 1]. */
  function Arcsin(m: MathLib, a: Float): (r: Float)
    ensures r.Num? <==> a.Num? && -1.0 <= a.v <= 1.0
    ensures r.Num? ==> r.v == m.arcsin(a.v)
    ensures !r.Num? ==> r == NaN
  {
    match a
    case Num(x) => if -1.0 <= x <= 1.0 then Num(m.arcsin(x)) else NaN
    case _ => NaN
  }
}
