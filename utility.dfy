/** Constants and utility functions of the renderer (rtweekend.rs). */
module Utility {
  import opened Numerics

  const PI: real := 3.1415926535897932385

  /** An f64 upper limit of an interval, which may be INFINITY. */
  datatype Bound = Finite(v: real) | Infinity

  const INFINITY: Bound := Infinity

  /** t < b, with every real number below INFINITY. */
  predicate Below(t: real, b: Bound)
  {
    b.Infinity? || t < b.v
  }

  /** a <= b on bounds. */
  predicate BoundLe(a: Bound, b: Bound)
  {
    b.Infinity? || (a.Finite? && a.v <= b.v)
  }

  /** A value `rng.gen::<f64>()` can return. */
  predicate IsDraw(r: real)
  {
    0.0 <= r < 1.0
  }

  function DegreesToRadians(degrees: real): (radians: real)
    ensures degrees == 180.0 ==> radians == PI
    ensures degrees == 0.0 ==> radians == 0.0
  {
    degrees * PI / 180.0
  }

  lemma DegreesToRadiansLinear(a: real, b: real, k: real)
    ensures DegreesToRadians(a + b) == DegreesToRadians(a) + DegreesToRadians(b)
    ensures DegreesToRadians(k * a) == k * DegreesToRadians(a)
  {
    assert (a + b) * PI == a * PI + b * PI;
    assert (k * a) * PI == k * (a * PI);
  }

  function Clamp(x: real, min: real, max: real): (r: real)
    ensures min <= max ==> min <= r <= max
    ensures min <= x <= max ==> r == x
    ensures r == x || r == min || r == max
  {
    if x < min then min
    else if x > max then max
    else x
  }

  function Abs(x: real): real
  {
    if x < 0.0 then -x else x
  }

  /** clamp returns the point of [min, max] nearest to x. */
  lemma ClampIsNearest(x: real, min: real, max: real, y: real)
    requires min <= y <= max
    ensures Abs(Clamp(x, min, max) - x) <= Abs(y - x)
  {
  }

  lemma ClampIdempotent(x: real, min: real, max: real)
    requires min <= max
    ensures Clamp(Clamp(x, min, max), min, max) == Clamp(x, min, max)
  {
  }

  lemma ClampMonotone(x: real, y: real, min: real, max: real)
    requires min <= max
    requires x <= y
    ensures Clamp(x, min, max) <= Clamp(y, min, max)
  {
  }

  /** random_double_minmax with the draw of random_double() as a parameter. */
  function RandomDoubleMinMax(min: real, max: real, draw: real): (x: real)
    ensures IsDraw(draw) && min < max ==> min <= x < max
    ensures draw == 0.0 ==> x == min
  {
    var width := max - min;
    assert IsDraw(draw) && 0.0 < width ==> 0.0 <= width * draw < width by {
      if IsDraw(draw) && 0.0 < width {
        ScaledDrawInRange(width, draw);
      }
    }
    min + width * draw
  }

  /** A draw in [0, 1) scales a positive width into [0, width). */
  lemma ScaledDrawInRange(width: real, draw: real)
    requires IsDraw(draw) && 0.0 < width
    ensures 0.0 <= width * draw < width
  {
    if 0.0 < draw {
      PositiveProduct(width, draw);
      PositiveProduct(width, 1.0 - draw);
      assert width * (1.0 - draw) == width - width * draw;
    }
  }

  /**
   * random_int as written: the draw scaled to [min, max + 1) and converted
   * with `as i64`, which truncates toward zero. `max + 1` must not overflow.
   */
  function RandomInt(min: int, max: int, draw: real): (n: int)
    requires I64_MIN <= min <= I64_MAX
    requires I64_MIN <= max < I64_MAX
    ensures I64_MIN <= n <= I64_MAX
  {
    CastToI64(Num(RandomDoubleMinMax(min as real, (max + 1) as real, draw)))
  }

  /** For a range of non-negative integers random_int keeps its promise. */
  lemma RandomIntInRange(min: int, max: int, draw: real)
    requires 0 <= min <= max < I64_MAX
    requires IsDraw(draw)
    ensures min <= RandomInt(min, max, draw) <= max
  {
    var x := RandomDoubleMinMax(min as real, (max + 1) as real, draw);
    assert min as real <= x < (max + 1) as real;
    assert Trunc(x) == x.Floor;
  }

  /** Below zero the truncation leaves the range: random_int(-2, -1) can return 0. */
  lemma RandomIntEscapesNegativeRange()
    ensures RandomInt(-2, -1, 0.75) == 0
    ensures !(-2 <= RandomInt(-2, -1, 0.75) <= -1)
  {
    assert RandomDoubleMinMax(-2.0, 0.0, 0.75) == -0.5;
    assert Trunc(-0.5) == 0;
  }

  /** random_int corrected: rounding toward negative infinity. */
  function RandomIntFloor(min: int, max: int, draw: real): (n: int)
    ensures IsDraw(draw) && min <= max ==> min <= n <= max
  {
    var x := RandomDoubleMinMax(min as real, (max + 1) as real, draw);
    x.Floor
  }
}
