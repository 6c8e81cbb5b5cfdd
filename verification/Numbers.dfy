/** Floating-point values as conversions use them; rounding and the sign of zero are left aside. */
module Numbers {
  datatype Number = Real(value: real) | Infinite(negative: bool) | NaN

  const ZERO := Real(0.0)
  const ONE := Real(1.0)

  /** Comparisons with what is not a number are false. */
  predicate Le(a: Number, b: Number) {
    match (a, b)
    case (Real(x), Real(y)) => x <= y
    case (Infinite(n), Real(_)) => n
    case (Real(_), Infinite(m)) => !m
    case (Infinite(n), Infinite(m)) => n || !m
    case _ => false
  }

  predicate Lt(a: Number, b: Number) { Le(a, b) && a != b }

  predicate Same(a: Number, b: Number) { a == b && a != NaN }

  predicate Negative(a: Number) { (a.Real? && a.value < 0.0) || (a.Infinite? && a.negative) }

  function Neg(a: Number): Number {
    match a
    case Real(x) => Real(-x)
    case Infinite(n) => Infinite(!n)
    case NaN => NaN
  }

  function Add(a: Number, b: Number): Number {
    match (a, b)
    case (Real(x), Real(y)) => Real(x + y)
    case (Infinite(n), Real(_)) => a
    case (Real(_), Infinite(m)) => b
    case (Infinite(n), Infinite(m)) => if n == m then a else NaN
    case _ => NaN
  }

  function Sub(a: Number, b: Number): Number { Add(a, Neg(b)) }

  function Mul(a: Number, b: Number): Number {
    match (a, b)
    case (Real(x), Real(y)) => Real(x * y)
    case (Infinite(_), Infinite(_)) => Infinite(Negative(a) != Negative(b))
    case (Infinite(_), Real(y)) => if y == 0.0 then NaN else Infinite(Negative(a) != Negative(b))
    case (Real(x), Infinite(_)) => if x == 0.0 then NaN else Infinite(Negative(a) != Negative(b))
    case _ => NaN
  }

  function Div(a: Number, b: Number): Number {
    match (a, b)
    case (Real(x), Real(y)) => if y != 0.0 then Real(x / y) else if x == 0.0 then NaN else Infinite(Negative(a))
    case (Infinite(_), Real(y)) => Infinite(Negative(a) != Negative(b))
    case (Real(_), Infinite(_)) => ZERO
    case _ => NaN
  }

  function Reals(xs: seq<real>): (r: seq<Number>)
    ensures |r| == |xs| && forall i :: 0 <= i < |xs| ==> r[i] == Real(xs[i])
  {
    seq(|xs|, i requires 0 <= i < |xs| => Real(xs[i]))
  }
}
