/**
 * Materials (material.rs): the four surface kinds and their scatter rules.
 *
 * `Scatter` is the specification of one scatter call: given the incoming
 * ray, the hit point, its normal, its face, the random values the call
 * consumes and the current contents of the two out-parameters, it gives
 * the boolean result and the new contents of both. `ScatterInto` is the
 * call itself, writing through mutable places as the source does.
 */
module Materials {
  import opened Numerics
  import opened Utility
  import opened Vectors
  import opened Rays

  /** The Material trait objects of the source, one constructor per implementation. */
  datatype Material =
    | Lambertian(albedo: Color)
    | Metal(albedo: Color, fuzz: real)
    | Dielectric(refIdx: real)
    | Uninit
  {
    /**
     * The source divides by ref_idx and by 1 + ref_idx (or 1 + 1/ref_idx);
     * real division is defined only for non-zero divisors.
     */
    predicate Valid()
    {
      Dielectric? ==> refIdx != 0.0 && refIdx != -1.0
    }
  }

  /** Metal::new: the fuzz is capped at 1. */
  function MetalNew(albedo: Color, fuzz: real): (mat: Material)
    ensures mat.Metal? && mat.albedo == albedo
    ensures mat.fuzz <= 1.0
    ensures fuzz < 1.0 ==> mat.fuzz == fuzz
    ensures fuzz >= 1.0 ==> mat.fuzz == 1.0
  {
    Metal(albedo, if fuzz < 1.0 then fuzz else 1.0)
  }

  /** x.powi(5). */
  function Pow5(x: real): real
  {
    x * x * x * x * x
  }

  /** Schlick's approximation of the reflectance at the given cosine. */
  function Schlick(cosine: real, refIdx: real): (r: real)
    requires refIdx != -1.0
    ensures cosine == 1.0 ==> r == ((1.0 - refIdx) / (1.0 + refIdx)) * ((1.0 - refIdx) / (1.0 + refIdx))
    ensures cosine == 0.0 ==> r == 1.0
  {
    var r0 := (1.0 - refIdx) / (1.0 + refIdx);
    var r0 := r0 * r0;
    r0 + (1.0 - r0) * Pow5(1.0 - cosine)
  }

  /** Between two media of equal index nothing is reflected at normal incidence. */
  lemma SchlickMatchedMedia(cosine: real)
    ensures Schlick(cosine, 1.0) == Pow5(1.0 - cosine)
  {
  }

  /** The random values one scatter call consumes. */
  datatype ScatterDraws = ScatterDraws(
    azimuthDraw: real,    // the two draws of random_unit_vector (Lambertian)
    heightDraw: real,
    inUnitSphere: Vec3,   // what random_in_unit_sphere returned (Metal)
    reflectDraw: real)    // the random_double of the Schlick test (Dielectric)

  /** The boolean result and the final contents of the two out-parameters. */
  datatype ScatterResult = ScatterResult(ok: bool, attenuation: Color, scattered: Ray)

  /** Colour::new(1, 1, 1), the attenuation of a dielectric. */
  const White: Color := Vec3(1.0, 1.0, 1.0)

  /** The index ratio a dielectric refracts with on the given face. */
  function EtaiOverEtat(refIdx: real, frontFace: bool): (ratio: real)
    requires refIdx != 0.0
    ensures frontFace ==> ratio * refIdx == 1.0
    ensures !frontFace ==> ratio == refIdx
    ensures refIdx != -1.0 ==> ratio != -1.0
  {
    if frontFace then ReciprocalNotMinusOne(refIdx); 1.0 / refIdx else refIdx
  }

  lemma ReciprocalNotMinusOne(x: real)
    requires x != 0.0
    ensures x != -1.0 ==> 1.0 / x != -1.0
  {
    if x != -1.0 {
      assert (1.0 / x) * x == 1.0;
    }
  }

  /** cos(theta) = min(-unit_direction . normal, 1). */
  function CosTheta(unitDirection: Vec3, normal: Vec3): (c: real)
    ensures c <= 1.0
  {
    Min(Dot(Neg(unitDirection), normal), 1.0)
  }

  /** sin(theta) = sqrt(1 - cos(theta)^2), NaN when the argument is negative. */
  function SinTheta(m: Libm, cosTheta: real): F64
  {
    Sqrt(m, 1.0 - cosTheta * cosTheta)
  }

  /** etai_over_etat * sin_theta > 1, which is false when sin_theta is NaN. */
  predicate CannotRefract(ratio: real, sinTheta: F64)
  {
    sinTheta.Num? && ratio * sinTheta.v > 1.0
  }

  /** The reflect-or-refract decision of a dielectric, and its direction. */
  function DielectricDirection(m: Libm, rIn: Ray, normal: Vec3, ratio: real, reflectDraw: real): (dir: Vec3)
    requires ratio != -1.0
    ensures var u := UnitVector(m, rIn.dir);
            CannotRefract(ratio, SinTheta(m, CosTheta(u, normal))) ==> dir == Reflect(u, normal)
    ensures var u := UnitVector(m, rIn.dir);
            var c := CosTheta(u, normal);
            !CannotRefract(ratio, SinTheta(m, c)) ==>
              dir == if reflectDraw < Schlick(c, ratio) then Reflect(u, normal) else Refract(m, u, normal, ratio)
  {
    var unitDirection := UnitVector(m, rIn.dir);
    var cosTheta := CosTheta(unitDirection, normal);
    if CannotRefract(ratio, SinTheta(m, cosTheta)) || reflectDraw < Schlick(cosTheta, ratio) then
      Reflect(unitDirection, normal)
    else
      Refract(m, unitDirection, normal, ratio)
  }

  /**
   * One call of Material::scatter. For a hit at p with normal `normal`
   * on face `frontFace`, `attenuation` and `scattered` are the current
   * contents of the out-parameters.
   */
  function Scatter(m: Libm, mat: Material, rIn: Ray, p: Point3, normal: Vec3, frontFace: bool,
                   d: ScatterDraws, attenuation: Color, scattered: Ray): (res: ScatterResult)
    requires mat.Valid()
    ensures mat.Lambertian? || mat.Dielectric? ==> res.ok
    ensures mat.Uninit? ==> res == ScatterResult(false, attenuation, scattered)
    ensures !mat.Uninit? ==> res.scattered.orig == p && res.scattered.tm == 0.0
    ensures mat.Lambertian? || mat.Metal? ==> res.attenuation == mat.albedo
    ensures mat.Lambertian? ==> res.scattered.dir == Add(normal, RandomUnitVector(m, d.azimuthDraw, d.heightDraw))
    ensures mat.Metal? ==> res.ok == (Dot(res.scattered.dir, normal) > 0.0)
    ensures mat.Metal? ==> res.scattered.dir == Add(Reflect(UnitVector(m, rIn.dir), normal), ScalarMul(mat.fuzz, d.inUnitSphere))
    ensures mat.Dielectric? ==> res.attenuation == White
  {
    match mat
    case Lambertian(albedo) =>
      var scatterDirection := Add(normal, RandomUnitVector(m, d.azimuthDraw, d.heightDraw));
      ScatterResult(true, albedo, Ray(p, scatterDirection, 0.0))
    case Metal(albedo, fuzz) =>
      var reflected := Reflect(UnitVector(m, rIn.dir), normal);
      var out := Ray(p, Add(reflected, ScalarMul(fuzz, d.inUnitSphere)), 0.0);
      ScatterResult(Dot(out.dir, normal) > 0.0, albedo, out)
    case Dielectric(refIdx) =>
      var ratio := EtaiOverEtat(refIdx, frontFace);
      ScatterResult(true, White, Ray(p, DielectricDirection(m, rIn, normal, ratio, d.reflectDraw), 0.0))
    case Uninit =>
      ScatterResult(false, attenuation, scattered)
  }

  /** The incoming ray's time stamp does not influence a scatter. */
  lemma ScatterIgnoresIncomingTime(m: Libm, mat: Material, rIn: Ray, tm: real, p: Point3, normal: Vec3,
                                   frontFace: bool, d: ScatterDraws, attenuation: Color, scattered: Ray)
    requires mat.Valid()
    ensures Scatter(m, mat, rIn, p, normal, frontFace, d, attenuation, scattered)
         == Scatter(m, mat, Ray(rIn.orig, rIn.dir, tm), p, normal, frontFace, d, attenuation, scattered)
  {
  }

  /**
   * Total internal reflection: when ratio * sin(theta) exceeds 1 a
   * dielectric reflects, whatever the draw of the Schlick test.
   */
  lemma DielectricTotalInternalReflection(m: Libm, refIdx: real, rIn: Ray, p: Point3, normal: Vec3,
                                          frontFace: bool, d: ScatterDraws, attenuation: Color, scattered: Ray)
    requires refIdx != 0.0 && refIdx != -1.0
    requires var u := UnitVector(m, rIn.dir);
             CannotRefract(EtaiOverEtat(refIdx, frontFace), SinTheta(m, CosTheta(u, normal)))
    ensures Scatter(m, Dielectric(refIdx), rIn, p, normal, frontFace, d, attenuation, scattered)
         == ScatterResult(true, White, Ray(p, Reflect(UnitVector(m, rIn.dir), normal), 0.0))
  {
  }

  /**
   * Otherwise the Schlick test decides: a draw below the reflectance
   * reflects, any other draw refracts.
   */
  lemma DielectricSchlickTest(m: Libm, refIdx: real, rIn: Ray, p: Point3, normal: Vec3,
                              frontFace: bool, d: ScatterDraws, attenuation: Color, scattered: Ray)
    requires refIdx != 0.0 && refIdx != -1.0
    requires var u := UnitVector(m, rIn.dir);
             !CannotRefract(EtaiOverEtat(refIdx, frontFace), SinTheta(m, CosTheta(u, normal)))
    ensures var ratio := EtaiOverEtat(refIdx, frontFace);
            var u := UnitVector(m, rIn.dir);
            var c := CosTheta(u, normal);
            var res := Scatter(m, Dielectric(refIdx), rIn, p, normal, frontFace, d, attenuation, scattered);
            res.scattered.dir == if d.reflectDraw < Schlick(c, ratio) then Reflect(u, normal)
                                 else Refract(m, u, normal, ratio)
  {
  }

  /**
   * A metal without fuzz is a mirror: for a unit normal it scatters exactly
   * when the (normalised) incoming direction points against the normal.
   */
  lemma MetalMirror(m: Libm, albedo: Color, rIn: Ray, p: Point3, normal: Vec3, frontFace: bool,
                    d: ScatterDraws, attenuation: Color, scattered: Ray)
    requires LengthSquared(normal) == 1.0
    ensures var res := Scatter(m, Metal(albedo, 0.0), rIn, p, normal, frontFace, d, attenuation, scattered);
            res.ok <==> Dot(UnitVector(m, rIn.dir), normal) < 0.0
  {
    var u := UnitVector(m, rIn.dir);
    var reflected := Reflect(u, normal);
    var dir := Add(reflected, ScalarMul(0.0, d.inUnitSphere));
    assert dir == reflected;
    assert Dot(reflected, normal) == -Dot(u, normal);
  }

  /**
   * Material::scatter, writing its results through the two out-parameters
   * as the source does.
   */
  method ScatterInto(m: Libm, mat: Material, rIn: Ray, p: Point3, normal: Vec3, frontFace: bool,
                     d: ScatterDraws, attenuation: Vec3Cell, scattered: RayCell) returns (ok: bool)
    requires mat.Valid()
    modifies attenuation, scattered
    ensures var res := Scatter(m, mat, rIn, p, normal, frontFace, d, old(attenuation.Value()), old(scattered.Value()));
            ok == res.ok && attenuation.Value() == res.attenuation && scattered.Value() == res.scattered
  {
    match mat
    case Lambertian(albedo) =>
      var scatterDirection := Add(normal, RandomUnitVector(m, d.azimuthDraw, d.heightDraw));
      scattered.Assign(Ray(p, scatterDirection, 0.0));
      attenuation.Assign(albedo);
      ok := true;
    case Metal(albedo, fuzz) =>
      var reflected := Reflect(UnitVector(m, rIn.dir), normal);
      scattered.Assign(Ray(p, Add(reflected, ScalarMul(fuzz, d.inUnitSphere)), 0.0));
      attenuation.Assign(albedo);
      ok := Dot(scattered.dir, normal) > 0.0;
    case Dielectric(refIdx) =>
      attenuation.Assign(White);
      var ratio := EtaiOverEtat(refIdx, frontFace);
      var unitDirection := UnitVector(m, rIn.dir);
      var cosTheta := CosTheta(unitDirection, normal);
      var sinTheta := SinTheta(m, cosTheta);
      if CannotRefract(ratio, sinTheta) || d.reflectDraw < Schlick(cosTheta, ratio) {
        scattered.Assign(Ray(p, Reflect(unitDirection, normal), 0.0));
        return true;
      }
      scattered.Assign(Ray(p, Refract(m, unitDirection, normal, ratio), 0.0));
      ok := true;
    case Uninit =>
      ok := false;
  }
}
