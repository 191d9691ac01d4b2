/**
 * Tone mapping of an accumulated pixel colour (get_color in color.rs).
 *
 * Each channel is reduced on its own: NaN becomes 0, the sum is divided by
 * the number of samples, gamma 2 is applied with sqrt, the result is clamped
 * to [0, 0.999], scaled by 256 and converted with `as i64`.
 */
module Colors {
  import opened Numerics
  import opened Utility
  import opened Vectors

  /** An accumulated colour whose channels may be NaN. */
  datatype Rgb = Rgb(r: F64, g: F64, b: F64)

  /** The colour of a real-valued Color. */
  function FromColor(c: Color): Rgb
  {
    Rgb(Num(c.x), Num(c.y), Num(c.z))
  }

  /** `1.0 / samples_per_pixel as f64`. */
  function Scale(samplesPerPixel: int): real
    requires samplesPerPixel != 0
  {
    1.0 / samplesPerPixel as real
  }

  /** `scale * x`, the average of the accumulated channel. */
  function Scaled(x: real, samplesPerPixel: int): real
    requires samplesPerPixel != 0
  {
    Scale(samplesPerPixel) * x
  }

  /** clamp(x, 0.0, 0.999) on an f64: a NaN fails both comparisons and passes through. */
  function ClampUnit(x: F64): (res: F64)
    ensures res.NaN? <==> x.NaN?
    ensures res.Num? ==> 0.0 <= res.v <= 0.999
  {
    match x
    case NaN => NaN
    case Num(v) => Num(Clamp(v, 0.0, 0.999))
  }

  /** `(256.0 * x) as i64` for x in [0, 0.999] or NaN. */
  function ToByte(x: F64): (n: int)
    requires x.Num? ==> 0.0 <= x.v <= 0.999
    ensures 0 <= n <= 255
    ensures x.NaN? ==> n == 0
    ensures x.Num? ==> n == (256.0 * x.v).Floor
  {
    match x
    case NaN => CastToI64(NaN)
    case Num(v) => CastToI64(Num(256.0 * v))
  }

  /** One channel of get_color. */
  function ToneChannel(m: Libm, c: F64, samplesPerPixel: int): (n: int)
    requires samplesPerPixel != 0
    ensures 0 <= n <= 255
  {
    var x := if c.NaN? then 0.0 else c.v;
    ToByte(ClampUnit(Sqrt(m, Scaled(x, samplesPerPixel))))
  }

  /** get_color: the three tone-mapped channels. */
  function GetColor(m: Libm, pixelColor: Rgb, samplesPerPixel: int): (rgb: (int, int, int))
    requires samplesPerPixel != 0
    ensures 0 <= rgb.0 <= 255 && 0 <= rgb.1 <= 255 && 0 <= rgb.2 <= 255
  {
    (ToneChannel(m, pixelColor.r, samplesPerPixel),
     ToneChannel(m, pixelColor.g, samplesPerPixel),
     ToneChannel(m, pixelColor.b, samplesPerPixel))
  }

  lemma ScaledOfZero(samplesPerPixel: int)
    requires samplesPerPixel != 0
    ensures Scaled(0.0, samplesPerPixel) == 0.0
  {
  }

  lemma ScaledMonotone(x: real, y: real, samplesPerPixel: int)
    requires 0 < samplesPerPixel
    requires x <= y
    ensures Scaled(x, samplesPerPixel) <= Scaled(y, samplesPerPixel)
  {
    var k := Scale(samplesPerPixel);
    assert 0.0 < k;
    assert k * y - k * x == k * (y - x);
    if x < y {
      PositiveProduct(k, y - x);
    }
  }

  /** An accumulated sum of at least one per sample averages to at least 1. */
  lemma ScaledAtLeastOne(x: real, samplesPerPixel: int)
    requires 0 < samplesPerPixel
    requires samplesPerPixel as real <= x
    ensures 1.0 <= Scaled(x, samplesPerPixel)
  {
    var n := samplesPerPixel as real;
    ScaledMonotone(n, x, samplesPerPixel);
    assert Scale(samplesPerPixel) * n == 1.0;
  }

  /** A zero channel, or a NaN one, maps to 0. */
  lemma ToneOfZero(m: Libm, c: F64, samplesPerPixel: int)
    requires SqrtLaws(m.sqrt)
    requires samplesPerPixel != 0
    requires c.NaN? || c == Num(0.0)
    ensures ToneChannel(m, c, samplesPerPixel) == 0
  {
    ScaledOfZero(samplesPerPixel);
    SqrtOfZero(m.sqrt);
  }

  /** A channel summing to at least one per sample is saturated at 255. */
  lemma ToneSaturates(m: Libm, c: real, samplesPerPixel: int)
    requires SqrtLaws(m.sqrt)
    requires 0 < samplesPerPixel
    requires samplesPerPixel as real <= c
    ensures ToneChannel(m, Num(c), samplesPerPixel) == 255
  {
    var x := Scaled(c, samplesPerPixel);
    ScaledAtLeastOne(c, samplesPerPixel);
    SqrtOfOne(m.sqrt);
    SqrtMonotone(m.sqrt, 1.0, x);
    assert ClampUnit(Sqrt(m, x)) == Num(0.999);
  }

  /** For non-negative channels and a positive sample count, more light never maps to less. */
  lemma ToneMonotone(m: Libm, a: real, b: real, samplesPerPixel: int)
    requires SqrtLaws(m.sqrt)
    requires 0 < samplesPerPixel
    requires 0.0 <= a <= b
    ensures ToneChannel(m, Num(a), samplesPerPixel) <= ToneChannel(m, Num(b), samplesPerPixel)
  {
    ScaledOfZero(samplesPerPixel);
    ScaledMonotone(0.0, a, samplesPerPixel);
    ScaledMonotone(a, b, samplesPerPixel);
    var x := Scaled(a, samplesPerPixel);
    var y := Scaled(b, samplesPerPixel);
    SqrtMonotone(m.sqrt, x, y);
    ClampMonotone(m.sqrt(x), m.sqrt(y), 0.0, 0.999);
    var p := Clamp(m.sqrt(x), 0.0, 0.999);
    var q := Clamp(m.sqrt(y), 0.0, 0.999);
    assert (256.0 * p).Floor <= (256.0 * q).Floor;
  }

  /** A negative sample count turns every positive channel into 0. */
  lemma ToneNegativeSamples(m: Libm, c: real, samplesPerPixel: int)
    requires samplesPerPixel < 0
    requires 0.0 < c
    ensures ToneChannel(m, Num(c), samplesPerPixel) == 0
  {
    var k := Scale(samplesPerPixel);
    assert k < 0.0;
    PositiveProduct(-k, c);
    assert Scaled(c, samplesPerPixel) == -((-k) * c);
  }

  /** A NaN in one channel gives 0 in that channel, whatever the others hold. */
  lemma GetColorNaN(m: Libm, pixelColor: Rgb, samplesPerPixel: int)
    requires SqrtLaws(m.sqrt)
    requires samplesPerPixel != 0
    ensures pixelColor.r.NaN? ==> GetColor(m, pixelColor, samplesPerPixel).0 == 0
    ensures pixelColor.g.NaN? ==> GetColor(m, pixelColor, samplesPerPixel).1 == 0
    ensures pixelColor.b.NaN? ==> GetColor(m, pixelColor, samplesPerPixel).2 == 0
  {
    if pixelColor.r.NaN? { ToneOfZero(m, pixelColor.r, samplesPerPixel); }
    if pixelColor.g.NaN? { ToneOfZero(m, pixelColor.g, samplesPerPixel); }
    if pixelColor.b.NaN? { ToneOfZero(m, pixelColor.b, samplesPerPixel); }
  }

  /** Black maps to (0, 0, 0). */
  lemma GetColorOfBlack(m: Libm, samplesPerPixel: int)
    requires SqrtLaws(m.sqrt)
    requires samplesPerPixel != 0
    ensures GetColor(m, FromColor(Zero), samplesPerPixel) == (0, 0, 0)
  {
    ToneOfZero(m, Num(0.0), samplesPerPixel);
  }

  /** Four samples summing to (4, 4, 4) map to white. */
  lemma GetColorOfFullSamples(m: Libm)
    requires SqrtLaws(m.sqrt)
    ensures GetColor(m, Rgb(Num(4.0), Num(4.0), Num(4.0)), 4) == (255, 255, 255)
  {
    ToneSaturates(m, 4.0, 4);
  }

  /** Each output channel depends only on its own input channel. */
  lemma GetColorChannelsIndependent(m: Libm, c: Rgb, d: Rgb, samplesPerPixel: int)
    requires samplesPerPixel != 0
    ensures c.r == d.r ==> GetColor(m, c, samplesPerPixel).0 == GetColor(m, d, samplesPerPixel).0
    ensures c.g == d.g ==> GetColor(m, c, samplesPerPixel).1 == GetColor(m, d, samplesPerPixel).1
    ensures c.b == d.b ==> GetColor(m, c, samplesPerPixel).2 == GetColor(m, d, samplesPerPixel).2
  {
  }
}
