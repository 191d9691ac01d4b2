/**
 * Rays (ray.rs): an origin, a direction and a time stamp.
 *
 * `Ray` is the value type with its constructor, accessors and `at`;
 * `RayCell` is a mutable ray place for `assign`, which the materials use
 * to write their scattered ray through `&mut`.
 */
module Rays {
  import opened Vectors

  datatype Ray = Ray(orig: Point3, dir: Vec3, tm: real)
  {
    function Origin(): Point3 { orig }

    function Direction(): Vec3 { dir }

    function Time(): real { tm }

    /** The point orig + t * dir. */
    function At(t: real): (p: Point3)
      ensures t == 0.0 ==> p == orig
      ensures t == 1.0 ==> p == Add(orig, dir)
    {
      Add(orig, ScalarMul(t, dir))
    }
  }

  /** Ray::default(): origin and direction zero, time 0. */
  const DefaultRay: Ray := Ray(Zero, Zero, 0.0)

  /** Ray::new stores its arguments and the accessors return them. */
  lemma NewStoresArguments(orig: Point3, dir: Vec3, tm: real)
    ensures Ray(orig, dir, tm).Origin() == orig
    ensures Ray(orig, dir, tm).Direction() == dir
    ensures Ray(orig, dir, tm).Time() == tm
  {
  }

  /** Every point of the default ray is the origin. */
  lemma DefaultRayAt(t: real)
    ensures DefaultRay.At(t) == Zero
  {
  }

  /**
   * Walking s along the ray and then t along a ray with the same direction
   * from there reaches the point at s + t.
   */
  lemma AtShift(r: Ray, s: real, t: real)
    ensures r.At(s + t) == Ray(r.At(s), r.dir, r.tm).At(t)
  {
    assert (s + t) * r.dir.x == s * r.dir.x + t * r.dir.x;
    assert (s + t) * r.dir.y == s * r.dir.y + t * r.dir.y;
    assert (s + t) * r.dir.z == s * r.dir.z + t * r.dir.z;
  }

  /** The points of a ray differ by a multiple of its direction. */
  lemma AtDifference(r: Ray, s: real, t: real)
    ensures Sub(r.At(t), r.At(s)) == ScalarMul(t - s, r.dir)
  {
    assert (t - s) * r.dir.x == t * r.dir.x - s * r.dir.x;
    assert (t - s) * r.dir.y == t * r.dir.y - s * r.dir.y;
    assert (t - s) * r.dir.z == t * r.dir.z - s * r.dir.z;
  }

  /** A mutable ray place. */
  class RayCell {
    var orig: Point3
    var dir: Vec3
    var tm: real

    /** A place holding the default ray. */
    constructor Default()
      ensures Value() == DefaultRay
    {
      orig, dir, tm := Zero, Zero, 0.0;
    }

    function Value(): Ray
      reads this
    {
      Ray(orig, dir, tm)
    }

    /** Ray::assign: copies origin, direction and time of r. */
    method Assign(r: Ray)
      modifies this
      ensures orig == r.orig && dir == r.dir && tm == r.tm
      ensures Value() == r
    {
      orig := r.orig;
      dir := r.dir;
      tm := r.tm;
    }
  }
}
