/**
 * The radiance estimator ray_color (main.rs).
 *
 * A ray that has run out of bounces is black; a ray that hits the world is
 * scattered by the material of the nearest hit and its colour is the
 * attenuation times the colour of the scattered ray; a ray that misses
 * everything takes the sky gradient. The random values each bounce consumes
 * are given per remaining depth.
 */
module Render {
  import opened Wrappers
  import opened Numerics
  import opened Utility
  import opened Vectors
  import opened Rays
  import opened Materials
  import opened Hitables
  import opened HitableLists

  /** The lower end of every world query, which keeps a ray off the surface it left. */
  const T_MIN: real := 0.001

  /** Colour::new(0.5, 0.7, 1.0), the sky straight up. */
  const SkyBlue: Color := Vec3(0.5, 0.7, 1.0)

  /** The sky parameter t = 0.5 * (y + 1) of a unit direction. */
  function SkyParameter(m: Libm, r: Ray): (t: real)
    ensures UnitVector(m, r.dir).y == 1.0 ==> t == 1.0
    ensures UnitVector(m, r.dir).y == -1.0 ==> t == 0.0
  {
    0.5 * (UnitVector(m, r.dir).y + 1.0)
  }

  /** The background: white blended into sky blue by the height of the direction. */
  function Sky(m: Libm, r: Ray): (c: Color)
    ensures c.z == 1.0
    ensures c == Add(ScalarMul(1.0 - SkyParameter(m, r), White), ScalarMul(SkyParameter(m, r), SkyBlue))
  {
    var t := SkyParameter(m, r);
    Vec3(1.0 - 0.5 * t, 1.0 - 0.3 * t, 1.0)
  }

  /** Every sky colour lies on the line through white and sky blue. */
  lemma SkyOnGradient(m: Libm, r: Ray)
    ensures 3.0 * (Sky(m, r).x - 1.0) == 5.0 * (Sky(m, r).y - 1.0)
  {
  }

  /** For directions of height in [-1, 1] the sky lies between white and sky blue. */
  lemma SkyBetweenEnds(m: Libm, r: Ray)
    requires -1.0 <= UnitVector(m, r.dir).y <= 1.0
    ensures SkyBlue.x <= Sky(m, r).x <= White.x
    ensures SkyBlue.y <= Sky(m, r).y <= White.y
  {
  }

  /** Straight up is sky blue, straight down is white. */
  lemma SkyEnds(m: Libm, r: Ray)
    ensures UnitVector(m, r.dir).y == 1.0 ==> Sky(m, r) == SkyBlue
    ensures UnitVector(m, r.dir).y == -1.0 ==> Sky(m, r) == White
  {
  }

  /** rec.mat_ptr.scatter(r, &rec, ...) with default out-parameters. */
  function ScatterAt(m: Libm, r: Ray, rec: HitRecord, d: ScatterDraws): ScatterResult
    requires rec.mat.Valid()
  {
    Scatter(m, rec.mat, r, rec.p, rec.normal, rec.frontFace, d, Zero, DefaultRay)
  }

  /** ray_color: the light arriving along r with depth bounces left. */
  function RayColor(m: Libm, r: Ray, world: Hitable, depth: int, draws: int -> ScatterDraws): (c: Color)
    requires ValidMaterials(world)
    ensures depth <= 0 ==> c == Zero
    ensures 0 < depth && world(r, T_MIN, INFINITY).None? ==> c == Sky(m, r)
    decreases depth
  {
    if depth <= 0 then Zero
    else
      match world(r, T_MIN, INFINITY)
      case None => Sky(m, r)
      case Some(rec) =>
        var res := ScatterAt(m, r, rec, draws(depth));
        if res.ok then Mul(res.attenuation, RayColor(m, res.scattered, world, depth - 1, draws))
        else Zero
  }

  /** Without bounces left the colour is black whatever the world holds. */
  lemma RayColorCutoff(m: Libm, r: Ray, world: Hitable, other: Hitable, depth: int, draws: int -> ScatterDraws)
    requires ValidMaterials(world) && ValidMaterials(other)
    requires depth <= 0
    ensures RayColor(m, r, world, depth, draws) == RayColor(m, r, other, depth, draws) == Zero
  {
  }

  /** A hit whose material absorbs the ray is black. */
  lemma RayColorAbsorbed(m: Libm, r: Ray, world: Hitable, depth: int, draws: int -> ScatterDraws)
    requires ValidMaterials(world)
    requires 0 < depth && world(r, T_MIN, INFINITY).Some?
    requires !ScatterAt(m, r, world(r, T_MIN, INFINITY).value, draws(depth)).ok
    ensures RayColor(m, r, world, depth, draws) == Zero
  {
  }

  /** A hit on an uninitialised material is black. */
  lemma RayColorUninit(m: Libm, r: Ray, world: Hitable, depth: int, draws: int -> ScatterDraws)
    requires ValidMaterials(world)
    requires world(r, T_MIN, INFINITY).Some? && world(r, T_MIN, INFINITY).value.mat.Uninit?
    ensures RayColor(m, r, world, depth, draws) == Zero
  {
  }

  /** A scattered ray contributes its colour, one bounce fewer, filtered by the attenuation. */
  lemma RayColorScatters(m: Libm, r: Ray, world: Hitable, depth: int, draws: int -> ScatterDraws)
    requires ValidMaterials(world)
    requires 0 < depth && world(r, T_MIN, INFINITY).Some?
    requires ScatterAt(m, r, world(r, T_MIN, INFINITY).value, draws(depth)).ok
    ensures RayColor(m, r, world, depth, draws) ==
      Mul(ScatterAt(m, r, world(r, T_MIN, INFINITY).value, draws(depth)).attenuation,
          RayColor(m, ScatterAt(m, r, world(r, T_MIN, INFINITY).value, draws(depth)).scattered, world, depth - 1, draws))
  {
  }

  /** With one bounce left the colour is the sky on a miss and black on any hit. */
  lemma RayColorLastBounce(m: Libm, r: Ray, world: Hitable, draws: int -> ScatterDraws)
    requires ValidMaterials(world)
    ensures world(r, T_MIN, INFINITY).None? ==> RayColor(m, r, world, 1, draws) == Sky(m, r)
    ensures world(r, T_MIN, INFINITY).Some? ==> RayColor(m, r, world, 1, draws) == Zero
  {
    if world(r, T_MIN, INFINITY).Some? {
      var res := ScatterAt(m, r, world(r, T_MIN, INFINITY).value, draws(1));
      assert RayColor(m, res.scattered, world, 0, draws) == Zero;
    }
  }

  /**
   * ray_color looks at the world only through queries over (0.001, INFINITY):
   * two worlds that agree on those give every ray the same colour.
   */
  lemma {:induction false} RayColorQueriesOnly(m: Libm, r: Ray, world: Hitable, other: Hitable, depth: int,
                                                draws: int -> ScatterDraws)
    requires ValidMaterials(world) && ValidMaterials(other)
    requires forall q: Ray :: world(q, T_MIN, INFINITY) == other(q, T_MIN, INFINITY)
    ensures RayColor(m, r, world, depth, draws) == RayColor(m, r, other, depth, draws)
    decreases depth
  {
    if 0 < depth && world(r, T_MIN, INFINITY).Some? {
      var res := ScatterAt(m, r, world(r, T_MIN, INFINITY).value, draws(depth));
      RayColorQueriesOnly(m, res.scattered, world, other, depth - 1, draws);
    }
  }

  /** An empty scene shows the sky to every ray with bounces left. */
  lemma RayColorEmptyScene(m: Libm, r: Ray, depth: int, draws: int -> ScatterDraws)
    requires 0 < depth
    ensures ValidMaterials(ListHitable([]))
    ensures RayColor(m, r, ListHitable([]), depth, draws) == Sky(m, r)
  {
    ListHitableValidMaterials([]);
  }
}
