/** Single-precision values as the encoders see them, and multiplication as exact real
    multiplication followed by some rounding (section 4.3 of IEEE 754-2019). */
module Floats {

  datatype Float = NaN | Inf(negative: bool) | Fin(v: real)

  predicate Finite(x: Float) { x.Fin? }

  /** `x <= y` on values that are not NaN. */
  predicate Leq(x: Float, y: Float) {
    match (x, y)
    case (NaN, _) => false
    case (_, NaN) => false
    case (Inf(n), _) => n || y == Inf(false)
    case (_, Inf(n)) => !n
    case (Fin(a), Fin(b)) => a <= b
  }

  function Abs(x: real): real { if x < 0.0 then -x else x }

  /** Half a unit in the last place: relative 2^-24, plus a bound on the subnormal term 2^-150. */
  const RELATIVE: real := 1.0 / 16777216.0
  const TINY: real := 1.0e-45

  function Slack(x: real): real { Abs(x) * RELATIVE + TINY }

  /** A rounding never yields NaN, keeps order, overflows only far outside every range used here,
      and is otherwise within `Slack` of the exact value. */
  ghost predicate IsRounding(r: real -> Float) {
    && (forall x :: !r(x).NaN?)
    && (forall x :: r(x).Inf? ==> (if r(x).negative then x <= -1.0e30 else x >= 1.0e30))
    && (forall x :: r(x).Fin? ==> Abs(r(x).v - x) <= Slack(x))
    && (forall x, y :: x <= y ==> Leq(r(x), r(y)))
  }

  /** Exact arithmetic is one rounding, so the type is inhabited. */
  function Exact(): real -> Float { (x: real) => Fin(x) }

  type Rounding = r: real -> Float | IsRounding(r) ghost witness Exact()

  /** `x * scale` in single precision for a finite positive `scale`. */
  function Scaled(r: Rounding, x: Float, scale: real): Float
    requires scale > 0.0
  {
    match x
    case Fin(v) => r(v * scale)
    case _ => x
  }

  lemma RoundingAt(r: Rounding, x: real)
    ensures !r(x).NaN?
    ensures r(x).Inf? ==> Abs(x) >= 1.0e30
    ensures r(x).Fin? ==> Abs(r(x).v - x) <= Slack(x)
  {
  }

  lemma RoundingMonotone(r: Rounding, a: real, b: real)
    requires a <= b
    ensures Leq(r(a), r(b))
  {
  }

  /** The C conversion to an integer type drops the fraction. */
  function Truncate(x: real): (n: int)
    ensures Abs(n as real - x) < 1.0
    ensures x >= 0.0 ==> 0.0 <= n as real <= x
    ensures x <= 0.0 ==> x <= n as real <= 0.0
  {
    if x >= 0.0 then x.Floor else -((-x).Floor)
  }

  lemma TruncateMonotone(x: real, y: real)
    requires x <= y
    ensures Truncate(x) <= Truncate(y)
  {
    if x < 0.0 && y >= 0.0 {
      assert Truncate(x) as real <= 0.0;
    }
  }
}
