/** The wire encoders of the Environmental Sensing Service and its notification trigger. */
module EssEncode {
  import opened Floats

  const UNKNOWN_S16 := -0x8000
  const UNKNOWN_U16 := 0xFFFF
  const TEMP_MIN := -27315
  const TEMP_MAX := 32767
  const HUM_MAX := 10000
  const PRESS_MIN := 260000
  const PRESS_MAX := 1260000

  const TEMP_SCALE := 100.0
  const HUM_SCALE := 100.0
  const PRESS_SCALE := 10000.0

  /** Clamp a product to `[lo, hi]` and drop its fraction. */
  function Clamp(scaled: Float, lo: int, hi: int): (n: int)
    requires !scaled.NaN? && lo <= hi
    ensures lo <= n <= hi
  {
    if Leq(scaled, Fin(lo as real)) then lo
    else if Leq(Fin(hi as real), scaled) then hi
    else assert lo as real < scaled.v < hi as real; Truncate(scaled.v)
  }

  function EncodeTemperature(r: Rounding, celsius: Float): (n: int)
    ensures n == -0x8000 || -27315 <= n <= 32767
    ensures n == -0x8000 <==> !Finite(celsius)
  {
    if !Finite(celsius) then UNKNOWN_S16
    else Clamp(Scaled(r, celsius, TEMP_SCALE), TEMP_MIN, TEMP_MAX)
  }

  function EncodeHumidity(r: Rounding, percent: Float): (n: int)
    ensures n == 0xFFFF || 0 <= n <= 10000
    ensures n == 0xFFFF <==> !Finite(percent)
  {
    if !Finite(percent) then UNKNOWN_U16
    else Clamp(Scaled(r, percent, HUM_SCALE), 0, HUM_MAX)
  }

  function EncodePressure(r: Rounding, kpa: Float): (n: int)
    ensures 260000 <= n <= 1260000
    ensures !Finite(kpa) ==> n == 260000
  {
    if !Finite(kpa) then PRESS_MIN
    else Clamp(Scaled(r, kpa, PRESS_SCALE), PRESS_MIN, PRESS_MAX)
  }

  // ---------------------------------------------------------------- range gates

  predicate Between(lo: Float, x: Float, hi: Float) {
    Finite(x) && Leq(lo, x) && Leq(x, hi)
  }

  /** The temperature bounds are single-precision quotients, so they carry a rounding too. */
  predicate TemperatureInRange(r: Rounding, celsius: Float) {
    Between(r(TEMP_MIN as real / 100.0), celsius, r(TEMP_MAX as real / 100.0))
  }

  predicate HumidityInRange(percent: Float) { Between(Fin(0.0), percent, Fin(100.0)) }

  predicate PressureInRange(kpa: Float) { Between(Fin(26.0), kpa, Fin(126.0)) }

  predicate Co2InRange(ppm: nat) { 400 <= ppm <= 5000 }

  predicate TvocInRange(ppb: nat) { 0 <= ppb <= 32767 }

  /** What the gates let through: finite readings in the physical range, ends included; for temperature
      up to the rounding of the bounds, which are themselves quotients. */
  lemma GatesMean(r: Rounding, x: real)
    ensures HumidityInRange(Fin(x)) <==> 0.0 <= x <= 100.0
    ensures PressureInRange(Fin(x)) <==> 26.0 <= x <= 126.0
    ensures -273.15 + Slack(273.15) <= x <= 327.67 - Slack(327.67) ==> TemperatureInRange(r, Fin(x))
    ensures TemperatureInRange(r, Fin(x)) ==> -273.15 - Slack(273.15) <= x <= 327.67 + Slack(327.67)
  {
    RoundingAt(r, TEMP_MIN as real / 100.0);
    RoundingAt(r, TEMP_MAX as real / 100.0);
  }

  lemma GatesRefuseNonFinite(r: Rounding, x: Float)
    requires !x.Fin?
    ensures !TemperatureInRange(r, x) && !HumidityInRange(x) && !PressureInRange(x)
  {
  }

  lemma GasGatesMean(ppm: nat, ppb: nat)
    ensures Co2InRange(ppm) <==> 400 <= ppm <= 5000
    ensures TvocInRange(ppb) <==> ppb <= 32767
  {
  }

  // ---------------------------------------------------------------- encoder theorems

  lemma ClampMonotone(x: Float, y: Float, lo: int, hi: int)
    requires lo <= hi && Leq(x, y)
    ensures Clamp(x, lo, hi) <= Clamp(y, lo, hi)
  {
    if x.Fin? && y.Fin? {
      TruncateMonotone(x.v, y.v);
    }
  }

  lemma RoundedClampMonotone(r: Rounding, a: real, b: real, lo: int, hi: int)
    requires a <= b && lo <= hi
    ensures Clamp(r(a), lo, hi) <= Clamp(r(b), lo, hi)
  {
    RoundingMonotone(r, a, b);
    ClampMonotone(r(a), r(b), lo, hi);
  }

  /** A hotter, damper or denser reading never encodes to a smaller number, whatever the rounding. */
  lemma TemperatureMonotone(r: Rounding, x: real, y: real)
    requires x <= y
    ensures EncodeTemperature(r, Fin(x)) <= EncodeTemperature(r, Fin(y))
  {
    RoundedClampMonotone(r, x * TEMP_SCALE, y * TEMP_SCALE, TEMP_MIN, TEMP_MAX);
  }

  lemma HumidityMonotone(r: Rounding, x: real, y: real)
    requires x <= y
    ensures EncodeHumidity(r, Fin(x)) <= EncodeHumidity(r, Fin(y))
  {
    RoundedClampMonotone(r, x * HUM_SCALE, y * HUM_SCALE, 0, HUM_MAX);
  }

  lemma PressureMonotone(r: Rounding, x: real, y: real)
    requires x <= y
    ensures EncodePressure(r, Fin(x)) <= EncodePressure(r, Fin(y))
  {
    RoundedClampMonotone(r, x * PRESS_SCALE, y * PRESS_SCALE, PRESS_MIN, PRESS_MAX);
  }

  /** Clamping a rounded product whose exact value is within `edge` of `[lo, hi]` loses less than
      one unit beyond the rounding and the edge. */
  lemma ClampAccuracy(r: Rounding, exact: real, lo: int, hi: int, edge: real)
    requires lo <= hi && edge >= 0.0
    requires lo as real - edge <= exact <= hi as real + edge
    requires Abs(exact) < 1.0e9
    ensures Abs(Clamp(r(exact), lo, hi) as real - exact) < 1.0 + Slack(exact) + edge
  {
    RoundingAt(r, exact);
  }

  /** The gate's temperature bounds are off by at most the rounding of 327.67. */
  lemma TemperatureGateEdge(r: Rounding, x: real)
    requires TemperatureInRange(r, Fin(x))
    ensures TEMP_MIN as real - 100.0 * Slack(328.0) <= 100.0 * x <= TEMP_MAX as real + 100.0 * Slack(328.0)
  {
    RoundingAt(r, TEMP_MIN as real / 100.0);
    RoundingAt(r, TEMP_MAX as real / 100.0);
  }

  /** Every reading its gate accepts is encoded to within one unit of the exact scaled value, plus
      the rounding of the product and (for temperature) of the gate's own bounds. */
  lemma TemperatureAccurate(r: Rounding, x: real)
    requires TemperatureInRange(r, Fin(x))
    ensures Abs(EncodeTemperature(r, Fin(x)) as real - 100.0 * x) < 1.0 + Slack(100.0 * x) + 100.0 * Slack(328.0)
  {
    TemperatureGateEdge(r, x);
    ClampAccuracy(r, x * TEMP_SCALE, TEMP_MIN, TEMP_MAX, 100.0 * Slack(328.0));
  }

  lemma HumidityAccurate(r: Rounding, x: real)
    requires HumidityInRange(Fin(x))
    ensures Abs(EncodeHumidity(r, Fin(x)) as real - 100.0 * x) < 1.0 + Slack(100.0 * x)
  {
    ClampAccuracy(r, x * HUM_SCALE, 0, HUM_MAX, 0.0);
  }

  lemma PressureAccurate(r: Rounding, x: real)
    requires PressureInRange(Fin(x))
    ensures Abs(EncodePressure(r, Fin(x)) as real - 10000.0 * x) < 1.0 + Slack(10000.0 * x)
  {
    ClampAccuracy(r, x * PRESS_SCALE, PRESS_MIN, PRESS_MAX, 0.0);
  }

  // ---------------------------------------------------------------- notification trigger

  datatype Trigger =
    | Inactive | FixedInterval | NoLessThanTime | ValueChanged
    | LessThan | LessOrEqual | GreaterThan | GreaterOrEqual | EqualTo | NotEqualTo

  predicate ShouldNotify(trigger: Trigger, before: int, after: int, ref: int) {
    match trigger
    case Inactive => false
    case ValueChanged => after != before
    case LessThan => after < ref
    case LessOrEqual => after <= ref
    case GreaterThan => after > ref
    case GreaterOrEqual => after >= ref
    case EqualTo => after == ref
    case NotEqualTo => after != ref
    case FixedInterval => false
    case NoLessThanTime => false
  }

  /** The value-changed trigger fires exactly on a change; each reference trigger compares the new value
      with the reference as its name says; the others never fire. */
  lemma TriggerLaws(before: int, after: int, ref: int)
    ensures ShouldNotify(ValueChanged, before, after, ref) <==> before != after
    ensures after < ref <==> ShouldNotify(LessThan, before, after, ref) && ShouldNotify(LessOrEqual, before, after, ref)
    ensures after == ref <==> ShouldNotify(LessOrEqual, before, after, ref) && ShouldNotify(GreaterOrEqual, before, after, ref)
    ensures after > ref <==> ShouldNotify(GreaterThan, before, after, ref) && ShouldNotify(GreaterOrEqual, before, after, ref)
    ensures ShouldNotify(LessThan, before, after, ref) <==> !ShouldNotify(GreaterOrEqual, before, after, ref)
    ensures ShouldNotify(GreaterThan, before, after, ref) <==> !ShouldNotify(LessOrEqual, before, after, ref)
    ensures ShouldNotify(EqualTo, before, after, ref) <==> after == ref
    ensures ShouldNotify(NotEqualTo, before, after, ref) <==> after != ref
    ensures forall t: Trigger :: t.Inactive? || t.FixedInterval? || t.NoLessThanTime? ==> !ShouldNotify(t, before, after, ref)
    ensures forall t, other :: t != ValueChanged ==>
      ShouldNotify(t, before, after, ref) == ShouldNotify(t, other, after, ref)
  {
  }
}
