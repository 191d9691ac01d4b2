/**
 * The parts of Rust's f64 on which the core's decisions depend.
 *
 * A number is a real; NaN is represented only where the code reacts to it
 * (tone mapping, and the sine computed in the Dielectric scatter).
 * Infinities and rounding are not represented. The three libm functions the
 * core calls are parameters bundled in `Libm`: the model knows of them only
 * the laws below, and every member asks for exactly the laws it needs.
 */
module Numerics {

  /** An f64 that may be NaN. */
  datatype F64 = NaN | Num(v: real)

  /** The libm functions the core calls, left uninterpreted. */
  datatype Libm = Libm(sqrt: real -> real, sin: real -> real, cos: real -> real)

  /** sqrt is the non-negative square root of every non-negative argument. */
  ghost predicate SqrtLaws(sqrt: real -> real)
  {
    forall x :: 0.0 <= x ==> 0.0 <= sqrt(x) && sqrt(x) * sqrt(x) == x
  }

  /** sin and cos lie on the unit circle. */
  ghost predicate TrigLaws(sin: real -> real, cos: real -> real)
  {
    forall a :: sin(a) * sin(a) + cos(a) * cos(a) == 1.0
  }

  /** The product of two positive numbers is positive. */
  lemma PositiveProduct(p: real, q: real)
    requires 0.0 < p && 0.0 < q
    ensures 0.0 < p * q
  {
  }

  /** A factor of a non-positive product with a positive factor is non-positive. */
  lemma NonPositiveFactor(p: real, q: real)
    requires 0.0 < q && p * q <= 0.0
    ensures p <= 0.0
  {
  }

  /** On non-negative reals, squaring preserves and reflects order. */
  lemma SquareReflectsOrder(a: real, b: real)
    requires 0.0 <= a && 0.0 <= b && a * a <= b * b
    ensures a <= b
  {
    assert (a - b) * (a + b) <= 0.0;
    if a + b > 0.0 {
      NonPositiveFactor(a - b, a + b);
    }
  }

  lemma SqrtOfZero(sqrt: real -> real)
    requires SqrtLaws(sqrt)
    ensures sqrt(0.0) == 0.0
  {
    assert 0.0 <= sqrt(0.0) && sqrt(0.0) * sqrt(0.0) == 0.0;
    SquareReflectsOrder(sqrt(0.0), 0.0);
  }

  lemma SqrtOfOne(sqrt: real -> real)
    requires SqrtLaws(sqrt)
    ensures sqrt(1.0) == 1.0
  {
    assert 0.0 <= sqrt(1.0) && sqrt(1.0) * sqrt(1.0) == 1.0;
    SquareReflectsOrder(sqrt(1.0), 1.0);
    SquareReflectsOrder(1.0, sqrt(1.0));
  }

  /** A positive argument has a positive root. */
  lemma SqrtPositive(sqrt: real -> real, x: real)
    requires SqrtLaws(sqrt)
    requires 0.0 < x
    ensures 0.0 < sqrt(x)
  {
    assert 0.0 <= sqrt(x) && sqrt(x) * sqrt(x) == x;
  }

  lemma SqrtMonotone(sqrt: real -> real, x: real, y: real)
    requires SqrtLaws(sqrt)
    requires 0.0 <= x <= y
    ensures sqrt(x) <= sqrt(y)
  {
    assert 0.0 <= sqrt(x) && sqrt(x) * sqrt(x) == x;
    assert 0.0 <= sqrt(y) && sqrt(y) * sqrt(y) == y;
    SquareReflectsOrder(sqrt(x), sqrt(y));
  }

  /** f64::sqrt: NaN for a negative argument, the libm root otherwise. */
  function Sqrt(m: Libm, x: real): (r: F64)
    ensures r.NaN? <==> x < 0.0
    ensures SqrtLaws(m.sqrt) && r.Num? ==> 0.0 <= r.v && r.v * r.v == x
  {
    if x < 0.0 then NaN else Num(m.sqrt(x))
  }

  function Min(a: real, b: real): real
  {
    if a <= b then a else b
  }

  const I64_MIN: int := -0x8000_0000_0000_0000
  const I64_MAX: int := 0x7FFF_FFFF_FFFF_FFFF

  /** Rounding toward zero. */
  function Trunc(x: real): (n: int)
    ensures 0.0 <= x ==> 0 <= n && n as real <= x < n as real + 1.0
    ensures x < 0.0 ==> n <= 0 && n as real - 1.0 < x <= n as real
  {
    if x >= 0.0 then x.Floor else -((-x).Floor)
  }

  /**
   * Rust's `x as i64` for an f64: NaN becomes 0, every other value is
   * truncated toward zero and saturated to the i64 range.
   */
  function CastToI64(x: F64): (n: int)
    ensures I64_MIN <= n <= I64_MAX
    ensures x.NaN? ==> n == 0
    ensures x.Num? && I64_MIN <= Trunc(x.v) <= I64_MAX ==> n == Trunc(x.v)
    ensures x.Num? && Trunc(x.v) < I64_MIN ==> n == I64_MIN
    ensures x.Num? && Trunc(x.v) > I64_MAX ==> n == I64_MAX
  {
    match x
    case NaN => 0
    case Num(v) =>
      var t := Trunc(v);
      if t < I64_MIN then I64_MIN else if t > I64_MAX then I64_MAX else t
  }
}
