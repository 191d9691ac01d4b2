/**
 * Hit records and the Hitable contract (hitable.rs).
 *
 * `HitRecord` is the value of a record; `HitRecordCell` is a mutable record
 * for the `&mut self` methods `set_face_normal` and `assign`. A Hitable is
 * modelled by what its `hit` computes: for a ray and an interval
 * (t_min, t_max) it returns the record it writes, or None when it reports
 * no hit.
 */
module Hitables {
  import opened Wrappers
  import opened Utility
  import opened Vectors
  import opened Rays
  import opened Materials

  datatype HitRecord = HitRecord(p: Point3, normal: Vec3, mat: Material, t: real, frontFace: bool)

  /** HitRecord::default(): zero point, normal and t, back face, the Uninit material. */
  const DefaultHitRecord: HitRecord := HitRecord(Zero, Zero, Uninit, 0.0, false)

  /** Hitable::hit, as the record a successful call writes. */
  type Hitable = (Ray, real, Bound) -> Option<HitRecord>

  /** Every reported hit lies strictly inside the queried interval. */
  ghost predicate Sound(h: Hitable)
  {
    forall r: Ray, tMin: real, tMax: Bound {:trigger h(r, tMin, tMax)} ::
      h(r, tMin, tMax).Some? ==> tMin < h(r, tMin, tMax).value.t && Below(h(r, tMin, tMax).value.t, tMax)
  }

  /** A hit kept only when it lies below the bound. */
  function Restrict(o: Option<HitRecord>, tMax: Bound): (res: Option<HitRecord>)
    ensures res.Some? <==> o.Some? && Below(o.value.t, tMax)
    ensures res.Some? ==> res == o
  {
    if o.Some? && Below(o.value.t, tMax) then o else None
  }

  /**
   * The object reports its nearest hit: what it reports for (t_min, t_max)
   * is its nearest hit beyond t_min, when that lies below t_max.
   */
  ghost predicate ReportsNearest(h: Hitable)
  {
    forall r: Ray, tMin: real, tMax: Bound {:trigger h(r, tMin, tMax)} ::
      h(r, tMin, tMax) == Restrict(h(r, tMin, Infinity), tMax)
  }

  /** Every material a hit can report is a well-formed one. */
  ghost predicate ValidMaterials(h: Hitable)
  {
    forall r: Ray, tMin: real, tMax: Bound {:trigger h(r, tMin, tMax)} ::
      h(r, tMin, tMax).Some? ==> h(r, tMin, tMax).value.mat.Valid()
  }

  /**
   * The record after set_face_normal(r, outward): the front face is the one
   * the ray arrives at against the outward normal.
   */
  function WithFaceNormal(rec: HitRecord, r: Ray, outward: Vec3): (res: HitRecord)
    ensures res.frontFace == (Dot(r.dir, outward) < 0.0)
    ensures res.normal == if res.frontFace then outward else Neg(outward)
    ensures res.p == rec.p && res.mat == rec.mat && res.t == rec.t
  {
    var frontFace := Dot(r.dir, outward) < 0.0;
    rec.(frontFace := frontFace, normal := if frontFace then outward else Neg(outward))
  }

  /** The stored normal always points against the ray. */
  lemma FaceNormalOpposesRay(rec: HitRecord, r: Ray, outward: Vec3)
    ensures Dot(r.dir, WithFaceNormal(rec, r, outward).normal) <= 0.0
    ensures WithFaceNormal(rec, r, outward).frontFace ==> Dot(r.dir, WithFaceNormal(rec, r, outward).normal) < 0.0
    ensures !WithFaceNormal(rec, r, outward).frontFace ==>
      Dot(r.dir, WithFaceNormal(rec, r, outward).normal) == -Dot(r.dir, outward)
  {
    var res := WithFaceNormal(rec, r, outward);
    if !res.frontFace {
      NegatedDot(r.dir, outward);
    }
  }

  lemma NegatedDot(a: Vec3, b: Vec3)
    ensures Dot(a, Neg(b)) == -Dot(a, b)
  {
    DotSymmetric(a, Neg(b));
    DotSymmetric(a, b);
    DotLinear(b, b, a, -1.0);
  }

  /** Setting the face normal twice for the same ray and outward normal changes nothing more. */
  lemma FaceNormalIdempotent(rec: HitRecord, r: Ray, outward: Vec3)
    ensures WithFaceNormal(WithFaceNormal(rec, r, outward), r, outward) == WithFaceNormal(rec, r, outward)
  {
  }

  /**
   * Where the ray is not tangent to the surface, flipping the outward normal
   * flips the face but leaves the stored normal as it was.
   */
  lemma FaceNormalIgnoresOrientation(rec: HitRecord, r: Ray, outward: Vec3)
    requires Dot(r.dir, outward) != 0.0
    ensures WithFaceNormal(rec, r, Neg(outward)).normal == WithFaceNormal(rec, r, outward).normal
    ensures WithFaceNormal(rec, r, Neg(outward)).frontFace == !WithFaceNormal(rec, r, outward).frontFace
  {
    NegatedDot(r.dir, outward);
    NegInvolution(outward);
  }

  /** A mutable hit record. */
  class HitRecordCell {
    var p: Point3
    var normal: Vec3
    var matPtr: Material
    var t: real
    var frontFace: bool

    /** HitRecord::new: stores its five arguments. */
    constructor New(p: Point3, normal: Vec3, matPtr: Material, t: real, frontFace: bool)
      ensures Value() == HitRecord(p, normal, matPtr, t, frontFace)
    {
      this.p, this.normal, this.matPtr, this.t, this.frontFace := p, normal, matPtr, t, frontFace;
    }

    /** HitRecord::default(). */
    constructor Default()
      ensures Value() == DefaultHitRecord
    {
      p, normal, matPtr, t, frontFace := Zero, Zero, Uninit, 0.0, false;
    }

    function Value(): HitRecord
      reads this
    {
      HitRecord(p, normal, matPtr, t, frontFace)
    }

    /** set_face_normal: writes front_face and normal and nothing else. */
    method SetFaceNormal(r: Ray, outward: Vec3)
      modifies this
      ensures Value() == WithFaceNormal(old(Value()), r, outward)
      ensures p == old(p) && matPtr == old(matPtr) && t == old(t)
    {
      frontFace := Dot(r.Direction(), outward) < 0.0;
      normal := if frontFace then outward else Neg(outward);
    }

    /** assign: copies all five fields of rec. */
    method Assign(rec: HitRecordCell)
      modifies this
      ensures Value() == old(rec.Value())
    {
      p := rec.p;
      normal := rec.normal;
      matPtr := rec.matPtr;
      t := rec.t;
      frontFace := rec.frontFace;
    }
  }

  /**
   * obj.hit(r, t_min, t_max, rec): on a hit the object's record is
   * written to rec; on a miss rec keeps its contents.
   */
  method HitInto(obj: Hitable, r: Ray, tMin: real, tMax: Bound, rec: HitRecordCell) returns (hit: bool)
    modifies rec
    ensures hit == obj(r, tMin, tMax).Some?
    ensures hit ==> rec.Value() == obj(r, tMin, tMax).value
    ensures !hit ==> rec.Value() == old(rec.Value())
  {
    var found := obj(r, tMin, tMax);
    if found.Some? {
      var h := found.value;
      rec.p, rec.normal, rec.matPtr, rec.t, rec.frontFace := h.p, h.normal, h.mat, h.t, h.frontFace;
      return true;
    }
    return false;
  }
}
