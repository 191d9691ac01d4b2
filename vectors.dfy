/**
 * Three-component vectors (vec3.rs), used as points, directions and colours.
 *
 * The arithmetic operators are functions on the value type `Vec3`; the
 * operators that update `&mut self` in place (assign, IndexMut and the
 * compound assignments) are methods of `Vec3Cell`, a mutable Vec3 place.
 * The random generators take their draws as parameters; the rejection
 * samplers take the sequence of candidate draws and scan it.
 */
module Vectors {
  import opened Numerics
  import opened Utility
  import opened Wrappers

  datatype Vec3 = Vec3(x: real, y: real, z: real)

  type Point3 = Vec3
  type Color = Vec3

  /** Vec3::default(). */
  const Zero: Vec3 := Vec3(0.0, 0.0, 0.0)

  /** v[i]; any index other than 0, 1, 2 panics. */
  function Index(v: Vec3, i: nat): real
    requires i < 3
  {
    if i == 0 then v.x else if i == 1 then v.y else v.z
  }

  /** A vector is determined by what indexing returns. */
  lemma IndexDetermines(a: Vec3, b: Vec3)
    requires forall i :: 0 <= i < 3 ==> Index(a, i) == Index(b, i)
    ensures a == b
  {
    assert Index(a, 0) == Index(b, 0);
    assert Index(a, 1) == Index(b, 1);
    assert Index(a, 2) == Index(b, 2);
  }

  function Neg(v: Vec3): Vec3
  {
    Vec3(-v.x, -v.y, -v.z)
  }

  lemma NegInvolution(v: Vec3)
    ensures Neg(Neg(v)) == v
  {
  }

  function Add(a: Vec3, b: Vec3): Vec3
  {
    Vec3(a.x + b.x, a.y + b.y, a.z + b.z)
  }

  function Sub(a: Vec3, b: Vec3): Vec3
  {
    Vec3(a.x - b.x, a.y - b.y, a.z - b.z)
  }

  /** Component-wise product `&Vec3 * &Vec3` (used to attenuate colours). */
  function Mul(a: Vec3, b: Vec3): Vec3
  {
    Vec3(a.x * b.x, a.y * b.y, a.z * b.z)
  }

  /** `&Vec3 * f64`. */
  function MulScalar(v: Vec3, s: real): Vec3
  {
    Vec3(v.x * s, v.y * s, v.z * s)
  }

  /** `f64 * &Vec3`. */
  function ScalarMul(s: real, v: Vec3): Vec3
  {
    Vec3(s * v.x, s * v.y, s * v.z)
  }

  /** Component-wise quotient; the model excludes zero divisors. */
  function Div(a: Vec3, b: Vec3): Vec3
    requires b.x != 0.0 && b.y != 0.0 && b.z != 0.0
  {
    Vec3(a.x / b.x, a.y / b.y, a.z / b.z)
  }

  /** `&Vec3 / f64`; the model excludes a zero divisor. */
  function DivScalar(v: Vec3, s: real): Vec3
    requires s != 0.0
  {
    Vec3(v.x / s, v.y / s, v.z / s)
  }

  lemma SubIsAddNeg(a: Vec3, b: Vec3)
    ensures Sub(a, b) == Add(a, Neg(b))
    ensures Add(Sub(a, b), b) == a
  {
  }

  /** Both scalar products give the same vector. */
  lemma ScalarProductsAgree(s: real, v: Vec3)
    ensures MulScalar(v, s) == ScalarMul(s, v)
  {
  }

  /** Scalar division undoes scalar multiplication. */
  lemma DivScalarUndoesMulScalar(v: Vec3, s: real)
    requires s != 0.0
    ensures DivScalar(MulScalar(v, s), s) == v
  {
    assert v.x * s / s == v.x;
    assert v.y * s / s == v.y;
    assert v.z * s / s == v.z;
  }

  /** Component-wise division undoes component-wise multiplication. */
  lemma DivUndoesMul(a: Vec3, b: Vec3)
    requires b.x != 0.0 && b.y != 0.0 && b.z != 0.0
    ensures Div(Mul(a, b), b) == a
  {
    assert a.x * b.x / b.x == a.x;
    assert a.y * b.y / b.y == a.y;
    assert a.z * b.z / b.z == a.z;
  }

  function Dot(a: Vec3, b: Vec3): real
  {
    a.x * b.x + a.y * b.y + a.z * b.z
  }

  lemma DotSymmetric(a: Vec3, b: Vec3)
    ensures Dot(a, b) == Dot(b, a)
  {
  }

  /** dot is linear in its first argument. */
  lemma DotLinear(a: Vec3, b: Vec3, c: Vec3, s: real)
    ensures Dot(Add(a, b), c) == Dot(a, c) + Dot(b, c)
    ensures Dot(Sub(a, b), c) == Dot(a, c) - Dot(b, c)
    ensures Dot(ScalarMul(s, a), c) == s * Dot(a, c)
    ensures Dot(Neg(a), c) == -Dot(a, c)
  {
    assert (s * a.x) * c.x + (s * a.y) * c.y + (s * a.z) * c.z
        == s * (a.x * c.x + a.y * c.y + a.z * c.z);
  }

  function Cross(a: Vec3, b: Vec3): Vec3
  {
    Vec3(a.y * b.z - a.z * b.y,
         -(a.x * b.z - a.z * b.x),
         a.x * b.y - a.y * b.x)
  }

  lemma CrossAntisymmetric(a: Vec3, b: Vec3)
    ensures Cross(a, b) == Neg(Cross(b, a))
  {
  }

  /** The cross product is orthogonal to both operands. */
  lemma CrossOrthogonal(a: Vec3, b: Vec3)
    ensures Dot(Cross(a, b), a) == 0.0
    ensures Dot(Cross(a, b), b) == 0.0
  {
    assert (a.y * b.z - a.z * b.y) * a.x + (-(a.x * b.z - a.z * b.x)) * a.y + (a.x * b.y - a.y * b.x) * a.z
        == a.x * a.y * b.z - a.x * a.z * b.y - a.x * a.y * b.z + a.y * a.z * b.x + a.x * a.z * b.y - a.y * a.z * b.x;
    assert (a.y * b.z - a.z * b.y) * b.x + (-(a.x * b.z - a.z * b.x)) * b.y + (a.x * b.y - a.y * b.x) * b.z
        == a.y * b.x * b.z - a.z * b.x * b.y - a.x * b.y * b.z + a.z * b.x * b.y + a.x * b.y * b.z - a.y * b.x * b.z;
  }

  function LengthSquared(v: Vec3): (r: real)
    ensures 0.0 <= r
    ensures v == Zero ==> r == 0.0
  {
    SquaresNonNegative(v);
    v.x * v.x + v.y * v.y + v.z * v.z
  }

  lemma SquaresNonNegative(v: Vec3)
    ensures 0.0 <= v.x * v.x && 0.0 <= v.y * v.y && 0.0 <= v.z * v.z
  {
    SquareNonNegative(v.x);
    SquareNonNegative(v.y);
    SquareNonNegative(v.z);
  }

  lemma SquareNonNegative(a: real)
    ensures 0.0 <= a * a
  {
    if a > 0.0 {
      PositiveProduct(a, a);
    } else if a < 0.0 {
      PositiveProduct(-a, -a);
    }
  }

  function Length(m: Libm, v: Vec3): (len: real)
    ensures SqrtLaws(m.sqrt) ==> 0.0 <= len && len * len == LengthSquared(v)
  {
    m.sqrt(LengthSquared(v))
  }

  /**
   * v / |v|. Where the computed length is 0, IEEE division gives NaN
   * components; the model returns the zero vector instead.
   */
  function UnitVector(m: Libm, v: Vec3): Vec3
  {
    var len := Length(m, v);
    if len == 0.0 then Zero else DivScalar(v, len)
  }

  /** Vec3::random_minmax with its three draws as parameters. */
  function RandomMinMax(min: real, max: real, d0: real, d1: real, d2: real): (v: Vec3)
    ensures IsDraw(d0) && IsDraw(d1) && IsDraw(d2) && min < max ==>
              min <= v.x < max && min <= v.y < max && min <= v.z < max
  {
    Vec3(RandomDoubleMinMax(min, max, d0),
         RandomDoubleMinMax(min, max, d1),
         RandomDoubleMinMax(min, max, d2))
  }

  /**
   * random_unit_vector with its two draws as parameters: an azimuth in
   * [0, 2 PI), a height z in [-1, 1), and radius sqrt(1 - z^2).
   */
  function RandomUnitVector(m: Libm, azimuthDraw: real, heightDraw: real): (u: Vec3)
    ensures IsDraw(heightDraw) ==> -1.0 <= u.z < 1.0
    ensures SqrtLaws(m.sqrt) && TrigLaws(m.sin, m.cos) && IsDraw(heightDraw) ==> LengthSquared(u) == 1.0
  {
    var a := RandomDoubleMinMax(0.0, 2.0 * PI, azimuthDraw);
    var z := RandomDoubleMinMax(-1.0, 1.0, heightDraw);
    var r := m.sqrt(1.0 - z * z);
    assert SqrtLaws(m.sqrt) && TrigLaws(m.sin, m.cos) && IsDraw(heightDraw) ==>
             LengthSquared(Vec3(r * m.cos(a), r * m.sin(a), z)) == 1.0 by {
      if SqrtLaws(m.sqrt) && TrigLaws(m.sin, m.cos) && IsDraw(heightDraw) {
        assert -1.0 <= z < 1.0;
        assert 0.0 <= 1.0 - z * z by {
          assert z * z <= 1.0 by {
            if z < 0.0 {
              assert z * z <= (-1.0) * z;
            } else {
              assert z * z <= 1.0 * z;
            }
          }
        }
        assert r * r == 1.0 - z * z;
        assert m.sin(a) * m.sin(a) + m.cos(a) * m.cos(a) == 1.0;
        calc {
          (r * m.cos(a)) * (r * m.cos(a)) + (r * m.sin(a)) * (r * m.sin(a)) + z * z;
          (r * r) * (m.sin(a) * m.sin(a) + m.cos(a) * m.cos(a)) + z * z;
          1.0;
        }
      }
    }
    Vec3(r * m.cos(a), r * m.sin(a), z)
  }

  /** One candidate of random_in_unit_disk: two draws mapped to [-1, 1), and z = 0. */
  function DiskCandidate(d: (real, real)): Vec3
  {
    Vec3(RandomDoubleMinMax(-1.0, 1.0, d.0), RandomDoubleMinMax(-1.0, 1.0, d.1), 0.0)
  }

  /** One candidate of random_in_unit_sphere: Vec3::random_minmax(-1, 1). */
  function SphereCandidate(d: (real, real, real)): Vec3
  {
    RandomMinMax(-1.0, 1.0, d.0, d.1, d.2)
  }

  /**
   * random_in_unit_disk over a given sequence of candidate draws: the first
   * candidate strictly inside the unit circle, or None when every given
   * candidate is rejected (the source would go on drawing).
   */
  method RandomInUnitDisk(candidates: seq<(real, real)>) returns (p: Option<Vec3>)
    ensures p.Some? ==> LengthSquared(p.value) < 1.0 && p.value.z == 0.0
    ensures p.Some? ==> exists i :: 0 <= i < |candidates| && p.value == DiskCandidate(candidates[i]) &&
                                    forall j :: 0 <= j < i ==> LengthSquared(DiskCandidate(candidates[j])) >= 1.0
    ensures p.None? ==> forall i :: 0 <= i < |candidates| ==> LengthSquared(DiskCandidate(candidates[i])) >= 1.0
  {
    var i := 0;
    while i < |candidates|
      invariant 0 <= i <= |candidates|
      invariant forall j :: 0 <= j < i ==> LengthSquared(DiskCandidate(candidates[j])) >= 1.0
    {
      var q := DiskCandidate(candidates[i]);
      if LengthSquared(q) < 1.0 {
        return Some(q);
      }
      i := i + 1;
    }
    return None;
  }

  /**
   * random_in_unit_sphere over a given sequence of candidate draws: the
   * first candidate strictly inside the unit ball, or None when every given
   * candidate is rejected.
   */
  method RandomInUnitSphere(candidates: seq<(real, real, real)>) returns (p: Option<Vec3>)
    ensures p.Some? ==> LengthSquared(p.value) < 1.0
    ensures p.Some? ==> exists i :: 0 <= i < |candidates| && p.value == SphereCandidate(candidates[i]) &&
                                    forall j :: 0 <= j < i ==> LengthSquared(SphereCandidate(candidates[j])) >= 1.0
    ensures p.None? ==> forall i :: 0 <= i < |candidates| ==> LengthSquared(SphereCandidate(candidates[i])) >= 1.0
  {
    var i := 0;
    while i < |candidates|
      invariant 0 <= i <= |candidates|
      invariant forall j :: 0 <= j < i ==> LengthSquared(SphereCandidate(candidates[j])) >= 1.0
    {
      var q := SphereCandidate(candidates[i]);
      if LengthSquared(q) < 1.0 {
        return Some(q);
      }
      i := i + 1;
    }
    return None;
  }

  /**
   * random_in_hemisphere, given the point random_in_unit_sphere returned:
   * that point, or its negation when it lies outside the normal's side.
   */
  function RandomInHemisphere(normal: Vec3, inUnitSphere: Vec3): (v: Vec3)
    ensures Dot(v, normal) >= 0.0
    ensures v == inUnitSphere || v == Neg(inUnitSphere)
    ensures LengthSquared(v) == LengthSquared(inUnitSphere)
  {
    DotLinear(inUnitSphere, inUnitSphere, normal, 1.0);
    if Dot(inUnitSphere, normal) > 0.0 then inUnitSphere else Neg(inUnitSphere)
  }

  /** The mirror image of v in the plane with normal n: v - 2 (v . n) n. */
  function Reflect(v: Vec3, n: Vec3): (r: Vec3)
    ensures LengthSquared(n) == 1.0 ==> Dot(r, n) == -Dot(v, n)
  {
    ReflectFlipsNormalComponent(v, n);
    Sub(v, ScalarMul(2.0 * Dot(v, n), n))
  }

  lemma ReflectFlipsNormalComponent(v: Vec3, n: Vec3)
    ensures var d := Dot(v, n);
            Dot(Sub(v, ScalarMul(2.0 * d, n)), n) == d - 2.0 * d * LengthSquared(n)
  {
    var d := Dot(v, n);
    var k := 2.0 * d;
    assert (v.x - k * n.x) * n.x == v.x * n.x - k * (n.x * n.x);
    assert (v.y - k * n.y) * n.y == v.y * n.y - k * (n.y * n.y);
    assert (v.z - k * n.z) * n.z == v.z * n.z - k * (n.z * n.z);
    assert k * (n.x * n.x) + k * (n.y * n.y) + k * (n.z * n.z) == k * LengthSquared(n);
  }

  /** Reflecting twice in the same unit normal gives the vector back. */
  lemma ReflectInvolution(v: Vec3, n: Vec3)
    requires LengthSquared(n) == 1.0
    ensures Reflect(Reflect(v, n), n) == v
  {
    var k := 2.0 * Dot(v, n);
    var r := Reflect(v, n);
    assert Dot(r, n) == -Dot(v, n);
    assert 2.0 * Dot(r, n) == -k;
    assert Reflect(r, n) == Sub(r, ScalarMul(-k, n));
  }

  /** Reflection in a unit normal preserves length. */
  lemma ReflectPreservesLength(v: Vec3, n: Vec3)
    requires LengthSquared(n) == 1.0
    ensures LengthSquared(Reflect(v, n)) == LengthSquared(v)
  {
    var d := Dot(v, n);
    var r := Reflect(v, n);
    assert r == Vec3(v.x - 2.0 * d * n.x, v.y - 2.0 * d * n.y, v.z - 2.0 * d * n.z);
    calc {
      LengthSquared(r);
      (v.x - 2.0 * d * n.x) * (v.x - 2.0 * d * n.x) + (v.y - 2.0 * d * n.y) * (v.y - 2.0 * d * n.y)
        + (v.z - 2.0 * d * n.z) * (v.z - 2.0 * d * n.z);
      LengthSquared(v) - 4.0 * d * (v.x * n.x + v.y * n.y + v.z * n.z)
        + 4.0 * d * d * (n.x * n.x + n.y * n.y + n.z * n.z);
      LengthSquared(v) - 4.0 * d * d + 4.0 * d * d * 1.0;
      LengthSquared(v);
    }
  }

  /** refract: the perpendicular part scaled by the index ratio, plus the parallel part. */
  function Refract(m: Libm, uv: Vec3, n: Vec3, etaiOverEtat: real): Vec3
  {
    var cosTheta := Min(Dot(Neg(uv), n), 1.0);
    var rOutPerp := ScalarMul(etaiOverEtat, Add(uv, ScalarMul(cosTheta, n)));
    var rOutParallel := ScalarMul(-m.sqrt(Abs(1.0 - LengthSquared(rOutPerp))), n);
    Add(rOutPerp, rOutParallel)
  }

  /** A mutable Vec3 place: a `let mut` binding or a `&mut Vec3` target. */
  class Vec3Cell {
    var x: real
    var y: real
    var z: real

    constructor (v: Vec3)
      ensures Value() == v
    {
      x, y, z := v.x, v.y, v.z;
    }

    function Value(): Vec3
      reads this
    {
      Vec3(x, y, z)
    }

    /** assign: copy all three components of v. */
    method Assign(v: Vec3)
      modifies this
      ensures Value() == v
    {
      x := v.x;
      y := v.y;
      z := v.z;
    }

    /** `self[i] = value` through IndexMut: component i changes and no other. */
    method SetIndex(i: nat, value: real)
      requires i < 3
      modifies this
      ensures Index(Value(), i) == value
      ensures forall j :: 0 <= j < 3 && j != i ==> Index(Value(), j) == Index(old(Value()), j)
    {
      if i == 0 {
        x := value;
      } else if i == 1 {
        y := value;
      } else {
        z := value;
      }
    }

    method AddAssign(rhs: Vec3)
      modifies this
      ensures Value() == Add(old(Value()), rhs)
    {
      x := x + rhs.x;
      y := y + rhs.y;
      z := z + rhs.z;
    }

    method SubAssign(rhs: Vec3)
      modifies this
      ensures Value() == Sub(old(Value()), rhs)
    {
      x := x - rhs.x;
      y := y - rhs.y;
      z := z - rhs.z;
    }

    method MulAssign(rhs: Vec3)
      modifies this
      ensures Value() == Mul(old(Value()), rhs)
    {
      x := x * rhs.x;
      y := y * rhs.y;
      z := z * rhs.z;
    }

    method MulAssignScalar(rhs: real)
      modifies this
      ensures Value() == MulScalar(old(Value()), rhs)
    {
      x := x * rhs;
      y := y * rhs;
      z := z * rhs;
    }

    method DivAssign(rhs: Vec3)
      requires rhs.x != 0.0 && rhs.y != 0.0 && rhs.z != 0.0
      modifies this
      ensures Value() == Div(old(Value()), rhs)
    {
      x := x / rhs.x;
      y := y / rhs.y;
      z := z / rhs.z;
    }

    method DivAssignScalar(rhs: real)
      requires rhs != 0.0
      modifies this
      ensures Value() == DivScalar(old(Value()), rhs)
    {
      x := x / rhs;
      y := y / rhs;
      z := z / rhs;
    }
  }
}
