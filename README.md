# A verified model of the core of a "Ray Tracing in One Weekend" renderer

This project models the core of a small Rust path tracer and proves properties of it in Dafny. The model covers:

- the vector algebra;
- rays;
- hit records and the abstract `Hitable` contract;
- the closest-hit scan over a scene list;
- the four materials;
- the recursive radiance estimator `ray_color`;
- the tone mapping `get_color`.

The modules follow the source files:

| module | file | source |
|---|---|---|
| `Numerics` | numerics.dfy | the f64 behaviour the core depends on: NaN, `sqrt`, `as i64` |
| `Utility` | utility.dfy | src/rtweekend.rs |
| `Vectors` | vectors.dfy | src/vec3.rs |
| `Rays` | rays.dfy | src/ray.rs |
| `Materials` | materials.dfy | src/material.rs |
| `Hitables` | hitables.dfy | src/hitable.rs |
| `HitableLists` | hitable_lists.dfy | src/hitable_list.rs |
| `Colors` | colors.dfy | `get_color` in src/color.rs |
| `Render` | render.dfy | `ray_color` in src/main.rs |
| `Wrappers` | wrappers.dfy | an `Option` type |

Modelling conventions:

- `f64` is modelled as `real`. `Numerics.F64 = NaN | Num(v)` carries NaN where the code reacts to it: the tone mapping and the Dielectric's `sin_theta`.
- `sqrt`, `sin` and `cos` are uninterpreted functions passed in a `Libm` value. Each member assumes only the laws it needs (`SqrtLaws`, `TrigLaws`).
- `f64::INFINITY` as an interval bound is `Utility.Bound.Infinity`.
- Every `random_double()` draw is a parameter. Each rejection sampler takes the sequence of its candidate draws.
- Values are datatypes: `Vec3`, `Ray`, `HitRecord`, `Material`.
- The methods that update `&mut self` are methods of mutable classes: `Vectors.Vec3Cell`, `Rays.RayCell`, `Hitables.HitRecordCell` and `HitableLists.HitableList`. Each such method's `ensures` ties the new state to the value-level function.
- A `Hitable` (a `dyn Hitable` object) is modelled by what its `hit` computes. It is a function from a ray, `t_min` and `t_max` to the record it writes, or `None`.
  - `Sound` says every reported hit lies in (t_min, t_max).
  - `ReportsNearest` says the object reports its nearest hit beyond t_min whenever that hit lies below t_max.
  - `ListHitable` shows that a scene list satisfies the same contract as the objects it holds.

`set_face_normal` (src/hitable.rs:35-42) negates the outward normal on a back face, so the stored normal always has `dot(direction, normal) <= 0`; see `Hitables.FaceNormalOpposesRay`.

## Model

| member | source | states |
|---|---|---|
| `Numerics.Sqrt` | src/material.rs:106 | f64 `sqrt` is NaN exactly for negative arguments; otherwise, under the sqrt laws, it is the non-negative root |
| `Numerics.Trunc` | src/rtweekend.rs:32 | rounding toward zero: the result lies within 1 of x, on the side of 0 |
| `Numerics.CastToI64` | src/color.rs:68-70 | `as i64` maps NaN to 0, saturates to the i64 range, and otherwise truncates toward zero |
| `Utility.Clamp` | src/rtweekend.rs:11-19 | when min <= max the result lies in [min, max]; x in range is returned unchanged; the result is always one of x, min, max |
| `Utility.ClampIsNearest` | src/rtweekend.rs:11-19 | clamp returns the point of [min, max] nearest to x |
| `Utility.ClampIdempotent` | src/rtweekend.rs:11-19 | clamping twice is clamping once |
| `Utility.ClampMonotone` | src/rtweekend.rs:11-19 | clamp is monotone in x |
| `Utility.DegreesToRadians` | src/rtweekend.rs:7-9 | 180 degrees is PI and 0 is 0 |
| `Utility.DegreesToRadiansLinear` | src/rtweekend.rs:7-9 | the conversion is additive and homogeneous |
| `Utility.RandomDoubleMinMax` | src/rtweekend.rs:26-28 | for a draw in [0, 1) and min < max the result lies in [min, max); draw 0 gives min |
| `Utility.RandomInt` | src/rtweekend.rs:30-33 | random_int as written; the result is an i64 |
| `Utility.RandomIntInRange` | src/rtweekend.rs:30-33 | for 0 <= min <= max and any draw in [0, 1), random_int lies in [min, max] |
| `Utility.RandomIntEscapesNegativeRange` | src/rtweekend.rs:30-33 | random_int(-2, -1) with draw 0.75 returns 0, outside [-2, -1] |
| `Utility.RandomIntFloor` | src/rtweekend.rs:30-33 | random_int rounding toward negative infinity lies in [min, max] for every draw in [0, 1) and min <= max |
| `Vectors.Index` | src/vec3.rs:73-84 | no contract of its own: `v[i]` for i < 3 (an index of 3 or more is a precondition, see Left out); covered by `Vectors.IndexDetermines` and `Vectors.Vec3Cell.SetIndex` |
| `Vectors.IndexDetermines` | src/vec3.rs:73-84 | indexing with 0, 1, 2 determines the vector |
| `Vectors.Neg` | src/vec3.rs:65-70 | no contract of its own: unary minus; covered by `Vectors.NegInvolution` and `Vectors.SubIsAddNeg` |
| `Vectors.NegInvolution` | src/vec3.rs:65-70 | -(-v) = v |
| `Vectors.Add` | src/vec3.rs:100-106 | no contract of its own: component-wise sum; covered by `Vectors.SubIsAddNeg`, `Vectors.DotLinear` and `Vectors.Vec3Cell.AddAssign` |
| `Vectors.Sub` | src/vec3.rs:109-115 | no contract of its own: component-wise difference; covered by `Vectors.SubIsAddNeg` and `Vectors.Vec3Cell.SubAssign` |
| `Vectors.Mul` | src/vec3.rs:118-124 | no contract of its own: component-wise product; covered by `Vectors.DivUndoesMul` and `Vectors.Vec3Cell.MulAssign` |
| `Vectors.SubIsAddNeg` | src/vec3.rs:100-115 | a - b = a + (-b), and (a - b) + b = a |
| `Vectors.MulScalar` | src/vec3.rs:127-133 | no contract of its own: `&Vec3 * f64`; covered by `Vectors.ScalarProductsAgree`, `Vectors.DivScalarUndoesMulScalar` and `Vectors.Vec3Cell.MulAssignScalar` |
| `Vectors.ScalarMul` | src/vec3.rs:136-142 | no contract of its own: `f64 * &Vec3`; covered by `Vectors.ScalarProductsAgree` and `Vectors.DotLinear` |
| `Vectors.ScalarProductsAgree` | src/vec3.rs:127-142 | `v * s` and `s * v` give the same vector |
| `Vectors.DivScalar` | src/vec3.rs:154-160 | no contract of its own: `&Vec3 / f64` (a zero divisor is a precondition, see Left out); covered by `Vectors.DivScalarUndoesMulScalar` and `Vectors.Vec3Cell.DivAssignScalar` |
| `Vectors.DivScalarUndoesMulScalar` | src/vec3.rs:154-160 | (v * s) / s = v for s != 0 |
| `Vectors.Div` | src/vec3.rs:145-151 | no contract of its own: component-wise quotient (zero divisors are a precondition, see Left out); covered by `Vectors.DivUndoesMul` and `Vectors.Vec3Cell.DivAssign` |
| `Vectors.DivUndoesMul` | src/vec3.rs:145-151 | component-wise (a * b) / b = a for non-zero components of b |
| `Vectors.Dot` | src/vec3.rs:222-224 | no contract of its own: the dot product; covered by `Vectors.DotSymmetric` and `Vectors.DotLinear` |
| `Vectors.DotSymmetric` | src/vec3.rs:222-224 | dot(a, b) = dot(b, a) |
| `Vectors.DotLinear` | src/vec3.rs:222-224 | dot is linear in its first argument (sum, difference, scalar multiple, negation) |
| `Vectors.Cross` | src/vec3.rs:226-232 | no contract of its own: the component formula; covered by `Vectors.CrossAntisymmetric` and `Vectors.CrossOrthogonal` |
| `Vectors.CrossAntisymmetric` | src/vec3.rs:226-232 | cross(a, b) = -cross(b, a) |
| `Vectors.CrossOrthogonal` | src/vec3.rs:226-232 | cross(a, b) is orthogonal to a and to b |
| `Vectors.LengthSquared` | src/vec3.rs:34-36 | the squared length is non-negative and 0 for the zero vector |
| `Vectors.Length` | src/vec3.rs:38-40 | under the sqrt laws the length is non-negative and squares to length_squared |
| `Vectors.UnitVector` | src/vec3.rs:234-236 | no contract of its own: v / length(v), the zero vector where the length is 0; its unit length is not claimed (see Left out) |
| `Vectors.RandomMinMax` | src/vec3.rs:46-52 | with three draws in [0, 1) every component lies in [min, max) |
| `Vectors.RandomUnitVector` | src/vec3.rs:238-243 | z lies in [-1, 1); under the sqrt and trig laws the vector has squared length 1 |
| `Vectors.RandomInUnitDisk` | src/vec3.rs:245-257 | returns the first candidate with length_squared < 1, whose z is 0, after rejecting all earlier ones; None only when every candidate is rejected |
| `Vectors.RandomInUnitSphere` | src/vec3.rs:259-267 | returns the first candidate with length_squared < 1 after rejecting all earlier ones; None only when every candidate is rejected |
| `Vectors.RandomInHemisphere` | src/vec3.rs:269-278 | the result has non-negative dot with the normal, is the sample or its negation, and keeps its length |
| `Vectors.Reflect` | src/vec3.rs:280-282 | for a unit normal, dot(reflect(v, n), n) = -dot(v, n) |
| `Vectors.ReflectFlipsNormalComponent` | src/vec3.rs:280-282 | for any n, the normal component of the reflection is d - 2 d n·n, where d = dot(v, n) |
| `Vectors.ReflectInvolution` | src/vec3.rs:280-282 | reflecting twice in a unit normal gives v back |
| `Vectors.ReflectPreservesLength` | src/vec3.rs:280-282 | reflection in a unit normal preserves the squared length |
| `Vectors.Refract` | src/vec3.rs:284-289 | no contract of its own: the perpendicular and parallel parts of the refracted ray; no property is claimed (see Left out); used by `Materials.DielectricDirection` |
| `Vectors.Vec3Cell.constructor` | src/vec3.rs:21-23 | a new place holds the given vector |
| `Vectors.Vec3Cell.Assign` | src/vec3.rs:54-58 | assign copies all three components |
| `Vectors.Vec3Cell.SetIndex` | src/vec3.rs:87-97 | a write through index_mut(i) sets component i and leaves the other two unchanged |
| `Vectors.Vec3Cell.AddAssign` | src/vec3.rs:163-170 | `+=` leaves self equal to old self + rhs |
| `Vectors.Vec3Cell.SubAssign` | src/vec3.rs:173-180 | `-=` leaves self equal to old self - rhs |
| `Vectors.Vec3Cell.MulAssign` | src/vec3.rs:183-190 | `*=` by a vector leaves self equal to the component-wise product |
| `Vectors.Vec3Cell.MulAssignScalar` | src/vec3.rs:193-200 | `*=` by a scalar leaves self equal to old self * rhs |
| `Vectors.Vec3Cell.DivAssign` | src/vec3.rs:203-210 | `/=` by a vector leaves self equal to the component-wise quotient |
| `Vectors.Vec3Cell.DivAssignScalar` | src/vec3.rs:213-220 | `/=` by a scalar leaves self equal to old self / rhs |
| `Rays.Ray.At` | src/ray.rs:37-39 | at(0) is the origin and at(1) is origin + direction |
| `Rays.Ray.Origin` | src/ray.rs:25-27 | no contract of its own: returns orig; covered by `Rays.NewStoresArguments` |
| `Rays.Ray.Direction` | src/ray.rs:29-31 | no contract of its own: returns dir; covered by `Rays.NewStoresArguments` |
| `Rays.Ray.Time` | src/ray.rs:33-35 | no contract of its own: returns tm; covered by `Rays.NewStoresArguments` |
| `Rays.NewStoresArguments` | src/ray.rs:21-35 | new stores its arguments and origin, direction and time return them |
| `Rays.DefaultRayAt` | src/ray.rs:10-18 | every point of the default ray is the zero vector |
| `Rays.AtShift` | src/ray.rs:37-39 | walking s and then t along the same direction reaches at(s + t) |
| `Rays.AtDifference` | src/ray.rs:37-39 | at(t) - at(s) = (t - s) * direction |
| `Rays.RayCell.Default` | src/ray.rs:10-18 | Ray::default() is the zero origin and direction with time 0 |
| `Rays.RayCell.Assign` | src/ray.rs:41-45 | assign copies origin, direction and time |
| `Materials.MetalNew` | src/material.rs:51-56 | Metal::new keeps the albedo, keeps fuzz below 1 and stores 1 otherwise, so fuzz <= 1 |
| `Materials.Schlick` | src/material.rs:3-7 | schlick(1, n) = ((1 - n) / (1 + n))² and schlick(0, n) = 1 |
| `Materials.SchlickMatchedMedia` | src/material.rs:3-7 | with ref_idx 1 the approximation is (1 - cosine)^5 |
| `Materials.EtaiOverEtat` | src/material.rs:98-102 | the ratio is 1/ref_idx on the front face and ref_idx on the back face, and never -1 when ref_idx is not -1 |
| `Materials.CosTheta` | src/material.rs:105 | cos_theta is at most 1 |
| `Materials.SinTheta` | src/material.rs:106 | no contract of its own: `(1 - cos_theta²).sqrt()`, NaN for a negative argument by `Numerics.Sqrt`; used by `Materials.CannotRefract` in `Materials.DielectricDirection` |
| `Materials.DielectricDirection` | src/material.rs:104-116 | when ratio * sin_theta > 1 the ray is reflected; otherwise it is reflected when the draw is below schlick and refracted otherwise |
| `Materials.Scatter` | src/material.rs:29-131 | Lambertian and Dielectric always scatter; Metal scatters iff dot(scattered, normal) > 0; Lambertian and Metal attenuate by their albedo, Dielectric by (1, 1, 1); the directions are normal + unit sample and reflection + fuzz * sample; every scattered ray starts at rec.p with time 0; Uninit returns false and leaves both out-parameters as they were |
| `Materials.ScatterIgnoresIncomingTime` | src/material.rs:29-131 | the incoming ray's time does not influence the scatter |
| `Materials.DielectricTotalInternalReflection` | src/material.rs:108-113 | a dielectric that cannot refract reflects, with attenuation (1, 1, 1), from rec.p at time 0 |
| `Materials.DielectricSchlickTest` | src/material.rs:108-117 | a dielectric that can refract reflects when the draw is below schlick and refracts otherwise |
| `Materials.MetalMirror` | src/material.rs:66-75 | a fuzz-free metal scatters exactly when the unit incoming direction meets a unit normal with negative dot |
| `Materials.ScatterInto` | src/material.rs:29-131 | the statement-by-statement scatter through `&mut attenuation` and `&mut scattered` returns and writes what Scatter describes |
| `Hitables.Restrict` | src/hitable.rs:53-55 | the bound restriction the Hitable contract `ReportsNearest` is stated with: a hit is kept exactly when it lies below the bound, and then unchanged |
| `Hitables.WithFaceNormal` | src/hitable.rs:35-42 | front_face = (dot(dir, outward) < 0); the normal is outward on the front face and -outward on the back face; p, t and the material are unchanged |
| `Hitables.FaceNormalOpposesRay` | src/hitable.rs:35-42 | after set_face_normal, dot(dir, normal) <= 0; it is negative on the front face and -dot(dir, outward) on the back face |
| `Hitables.FaceNormalIdempotent` | src/hitable.rs:35-42 | setting the face normal twice with the same arguments is setting it once |
| `Hitables.FaceNormalIgnoresOrientation` | src/hitable.rs:35-42 | off the tangent plane, flipping the outward normal flips front_face and keeps the stored normal |
| `Hitables.HitRecordCell.New` | src/hitable.rs:25-33 | HitRecord::new stores its five arguments |
| `Hitables.HitRecordCell.Default` | src/hitable.rs:12-22 | the default record has zero p, normal and t, a back face and the Uninit material |
| `Hitables.HitRecordCell.SetFaceNormal` | src/hitable.rs:35-42 | set_face_normal gives the record WithFaceNormal describes and leaves p, t and the material unchanged |
| `Hitables.HitRecordCell.Assign` | src/hitable.rs:44-50 | assign copies all five fields |
| `Hitables.HitInto` | src/hitable.rs:53-55 | a hit call returns whether the object reports a hit, writes its record on a hit and leaves rec unchanged on a miss |
| `HitableLists.Scan` | src/hitable_list.rs:24-34 | closest_so_far is t_max until the first success, and afterwards the t of the record held |
| `HitableLists.ListHit` | src/hitable_list.rs:23-36 | the empty list reports no hit |
| `HitableLists.ScanFound` | src/hitable_list.rs:25-35 | hit_anything is set exactly when some call of the scan succeeded |
| `HitableLists.ScanKeepsLastSuccess` | src/hitable_list.rs:29-32 | the record held is the one of the last successful call; every later call failed |
| `HitableLists.QueryWithin` | src/hitable_list.rs:29 | for sound objects, each success lies in (t_min, closest_so_far) |
| `HitableLists.ScanNarrows` | src/hitable_list.rs:26-31 | for sound objects, closest_so_far never increases |
| `HitableLists.ScanSound` | src/hitable_list.rs:29-32 | for sound objects, the record held has t in (t_min, t_max) |
| `HitableLists.SuccessesDecrease` | src/hitable_list.rs:29-31 | for sound objects, each success is strictly below every earlier success |
| `HitableLists.ScanNearest` | src/hitable_list.rs:28-34 | for objects that report their nearest hit, the scan finds a hit iff some object has one in (t_min, t_max), and it finds one of minimal t |
| `HitableLists.ScanRestricts` | src/hitable_list.rs:28-34 | for such objects, scanning up to t_max keeps the unbounded scan's result exactly when it lies below t_max |
| `HitableLists.ScanValidMaterials` | src/hitable_list.rs:29-32 | for objects that report only valid materials, the record held has a valid material |
| `HitableLists.ListHitNearest` | src/hitable_list.rs:23-36 | hit returns true iff some object has a hit in (t_min, t_max); the record is one of theirs with minimal t |
| `HitableLists.ListHitSingleton` | src/hitable_list.rs:23-36 | a one-object list reports what the object reports |
| `HitableLists.ListHitableSound` | src/hitable_list.rs:22-37 | a list of sound objects is a sound Hitable |
| `HitableLists.ListHitableNearest` | src/hitable_list.rs:22-37 | a list of objects reporting their nearest hit reports its nearest hit |
| `HitableLists.ListHitableValidMaterials` | src/hitable_list.rs:22-37 | a list of objects with valid materials reports only valid materials |
| `HitableLists.HitableList.constructor` | src/hitable_list.rs:9-13 | new gives an empty list |
| `HitableLists.HitableList.Clear` | src/hitable_list.rs:14-16 | clear empties the list |
| `HitableLists.HitableList.Add` | src/hitable_list.rs:17-19 | add appends the object after the others, in order |
| `HitableLists.HitableList.Hit` | src/hitable_list.rs:23-36 | the loop returns whether the scan found a hit, leaves the scan's record in rec, and leaves rec unchanged when nothing was hit |
| `Colors.ClampUnit` | src/color.rs:68-70 | clamp(x, 0, 0.999) lets NaN through and otherwise lies in [0, 0.999] |
| `Colors.ToByte` | src/color.rs:68-70 | `(256 * x) as i64` lies in [0, 255]; it is 0 for NaN and floor(256 x) otherwise |
| `Colors.ToneChannel` | src/color.rs:45-71 | each tone-mapped channel lies in [0, 255] |
| `Colors.GetColor` | src/color.rs:41-72 | every output channel lies in [0, 255] |
| `Colors.ToneOfZero` | src/color.rs:50-71 | a NaN or zero channel maps to 0 |
| `Colors.ToneSaturates` | src/color.rs:61-71 | a channel summing to at least the number of samples maps to 255 |
| `Colors.ToneMonotone` | src/color.rs:62-71 | for non-negative channels and a positive sample count, a larger channel never maps lower |
| `Colors.ToneNegativeSamples` | src/color.rs:61-64 | with a negative sample count every positive channel maps to 0 |
| `Colors.GetColorNaN` | src/color.rs:50-71 | a NaN channel gives 0 in that channel, whatever the others hold |
| `Colors.GetColorOfBlack` | src/color.rs:61-71 | black maps to (0, 0, 0) |
| `Colors.GetColorOfFullSamples` | src/color.rs:61-71 | (4, 4, 4) with 4 samples maps to (255, 255, 255) |
| `Colors.GetColorChannelsIndependent` | src/color.rs:45-71 | each output channel depends only on its own input channel |
| `Render.SkyParameter` | src/main.rs:44-45 | t is 1 for a direction straight up and 0 straight down |
| `Render.Sky` | src/main.rs:44-46 | the sky is (1 - t) white + t (0.5, 0.7, 1.0), and its blue channel is always 1 |
| `Render.SkyOnGradient` | src/main.rs:44-46 | every sky colour lies on the line through white and sky blue |
| `Render.SkyBetweenEnds` | src/main.rs:44-46 | for a height in [-1, 1] the sky lies between sky blue and white |
| `Render.SkyEnds` | src/main.rs:44-46 | straight up is sky blue and straight down is white |
| `Render.RayColor` | src/main.rs:25-47 | depth <= 0 gives black; a miss of the (0.001, INFINITY) query gives the sky; the recursion decreases depth |
| `Render.RayColorCutoff` | src/main.rs:28-30 | with depth <= 0 the colour is black, whatever the world |
| `Render.RayColorAbsorbed` | src/main.rs:35-41 | a hit whose material does not scatter is black |
| `Render.RayColorUninit` | src/main.rs:35-41 | a hit on the Uninit material is black at every depth |
| `Render.RayColorScatters` | src/main.rs:35-39 | a hit that scatters gives attenuation ⊙ ray_color(scattered, depth - 1) |
| `Render.RayColorLastBounce` | src/main.rs:28-41 | with depth 1 the result is the sky on a miss and black on any hit |
| `Render.RayColorQueriesOnly` | src/main.rs:32 | the world is consulted only through queries over (0.001, INFINITY): worlds that agree on them give the same colour |
| `Render.RayColorEmptyScene` | src/main.rs:32-46 | in an empty scene list every ray with depth left sees the sky |

## Left out

- src/camera.rs, `write_color` (src/color.rs:4-39, the arithmetic of `get_color` plus stream output), the `Display` impl, `random_scene`, the main render loop and its rayon scheduling: outside the modelled core, and I/O or concurrency.
- src/sphere.rs is not part of this model. Objects are modelled by the `Hitable` contract, and the list lemmas assume `Sound` or `ReportsNearest` where they need it.
- The random number generator (`random_double`, src/rtweekend.rs:21-24) and `Vec3::random`: every draw is a parameter instead.
- `Lambertian::new` and `Dielectric::new` only store their argument; they are the datatype constructors `Lambertian(albedo)` and `Dielectric(refIdx)`.
- `Rc`/`Arc` sharing and `dyn` dispatch: objects and materials are values (functions and a datatype). A `Hitable` that writes into rec and then returns false is not representable. `Hitables.HitInto` leaves rec unchanged on a miss.
- Floating point: arithmetic is exact on reals, with no rounding, overflow or IEEE infinities. NaN is represented only in `F64`; INFINITY only as an interval bound.
- Vectors.Div: zero divisor components are excluded by a precondition; IEEE would give infinities or NaN.
- Vectors.DivScalar: a zero divisor is excluded by a precondition.
- Vectors.Vec3Cell.DivAssign: zero divisor components are excluded, as for `Div`.
- Vectors.Vec3Cell.DivAssignScalar: a zero divisor is excluded, as for `DivScalar`.
- Vectors.Index: an index of 3 or more panics in the source; in the model it is a precondition.
- Vectors.UnitVector: a vector whose computed length is 0 maps to the zero vector, where IEEE division gives NaN. No unit-length property is stated, because the exactness of `unit_vector` is a floating-point matter.
- Vectors.LengthSquared: states non-negativity and zero for the zero vector, but not that only the zero vector has length 0.
- Vectors.Refract: no property is stated; its numerical accuracy is outside the model.
- Vectors.RandomInUnitDisk: scans a finite sequence of candidates and returns None when all are rejected. The source loops until it accepts one.
- Vectors.RandomInUnitSphere: scans a finite sequence of candidates and returns None when all are rejected. The source loops until it accepts one.
- Vectors.RandomInHemisphere: takes the point `random_in_unit_sphere` returned as a parameter.
- Utility.RandomInt: requires `max + 1` to fit in an i64. In the source that addition overflows (a panic in debug builds).
- Materials.Schlick: ref_idx = -1 is excluded, because it would divide by zero.
- Materials.Scatter: a Dielectric with ref_idx 0 or -1 is excluded through `Material.Valid()`, because it would divide by zero. The scatter receives the hit record's p, normal and front_face rather than the record, which the material module cannot name without a cycle. Random inputs arrive in `ScatterDraws`.
- Materials.ScatterInto: the same exclusions as `Scatter`.
- Render.RayColor: requires every material the world can report to be `Valid()`. The random inputs of the bounce at each remaining depth are a parameter `draws`.
- Colors.GetColor: a sample count of 0 is excluded; 1/0 would be an IEEE infinity. Negative counts are modelled.
- Colors.ToneChannel: the same exclusion of a zero sample count as `GetColor`.

## Findings

| source | as written | input that shows it | evidently intended | confidence | as-written member | corrected member |
|---|---|---|---|---|---|---|
| src/rtweekend.rs:30-33 | `random_double_minmax(min, max + 1) as i64` truncates toward zero | random_int(-2, -1) with draw 0.75: the double is -0.5 and `as i64` gives 0, outside [-2, -1] | rounding toward negative infinity (`floor`), which lies in [min, max] for every range | not executed | `Utility.RandomIntEscapesNegativeRange` | `Utility.RandomIntFloor` |
