# A verified model of a small Monte Carlo path tracer

The program renders a randomly generated scene of spheres into a three-channel 8-bit image. For each
pixel it takes the pixel centre to normalised device coordinates and then to screen space.
It jitters 500 sample points around that point and turns each one into a world-space ray
with a camera built from an inverse projection matrix and a look-at basis. It traces each
ray through the scene for at most 50 bounces:

- Lambertian, metal and dielectric materials scatter the ray.
- A miss returns a white-to-blue sky gradient.
- The recursion stops with black at depth 0.

Each pixel is the average of its 500 samples, gamma-encoded with a square root, clamped,
quantised to 0..255 and written into the pixel's slot of the image buffer.

The project models that core, one Dafny module per source file:

| module | file | what it holds |
|---|---|---|
| `Numeric` | numeric.dfy | C++ operators the model needs: clamp, min/max, truncating integer halving, float-to-int truncation, the square-root law |
| `Vectors` | vectors.dfy | `Vec3`, `Vec2f`, `Vec2i`, dot, cross, length, `unit_vector` |
| `Vec4s` | vec4.dfy | `Vec4`, `xyz`, `/=`, `normalize` |
| `Matrix44` | matrix.dfy | row-major 4x4 matrices, transpose, translation, axes, product, matrix-vector product |
| `Rays` | ray.dfy | rays and `at` |
| `Hittables` | hittable.dfy | `HitRecord`, `set_face_normal`, `Range`, the material kinds |
| `Spheres` | sphere.dfy | sphere intersection with root selection |
| `Scenes` | scene.dfy | the `Scene` class and its nearest-hit query |
| `Materials` | material.dfy | the three scattering laws |
| `Utils` | utils.dfy | raster/NDC/screen conversions, `near_zero`, `reflect`, `refract` |
| `Cameras` | camera.dfy | the `Camera` class: inverse projection, look-at, world/camera transforms, ray generation |
| `Images` | image.dfy | the `Image` class over an `array<int>` buffer, with its row accessors |
| `Tracing` | tracing.dfy | `intersect`, both `trace` functions, the sky gradient |
| `Sampling` | sampling.dfy | both `get_pixels` overloads and the quantisation of a channel |
| `Rendering` | rendering.dfy | `MSAA`: the per-pixel sampling loop and the stores into the image |

Floating-point numbers are modelled as `real`. The square root and the tangent are
function-valued parameters `sqrt` and `tan`. Lemmas that rely on the square-root law assume
`IsSqrt(sqrt)`: `sqrt(x) * sqrt(x) == x` and `sqrt(x) >= 0` for `x >= 0`. The random draws
are parameters too:

- the jitter offsets of each pixel (`jitter(x, y)(i)`);
- the random unit vector each bounce of a path uses (`paths(x, y, i)(depth)`).

The methods that carry the source's loops are proved equal to pure specification functions:

- `Matrix44.Mul`
- `Matrix44.Transpose`
- `Scenes.Scene.Hit`
- `Tracing.TraceNormals`
- `Sampling.GetPixelsInt` and `Sampling.GetPixelsFloat`
- `Rendering.RenderPixel` and `Rendering.MSAA`

The recursive `trace(scene, ray, depth)` is the recursive method `Tracing.Trace`, proved equal
to the recursive function `Tracing.TraceColour`.

Lemmas then state what those functions promise.

## Model

| member | source | states |
|---|---|---|
| Numeric.Abs | src/utils.h:69 | `fabs`: non-negative and equal to the argument or its negation |
| Numeric.MinReal | src/utils.h:81 | `fmin`: at most both arguments and equal to one of them |
| Numeric.Clamp | src/main.cpp:137-138 | `std::clamp`: the result lies in [lo, hi], equals v inside it and the nearer bound outside it |
| Numeric.MaxInt | src/main.cpp:151-152 | `std::max` on int: at least both arguments and equal to one of them |
| Numeric.MinInt | src/main.cpp:154-155 | `std::min` on int: at most both arguments and equal to one of them |
| Numeric.TruncHalf | src/main.cpp:148-149 | C++ `n / 2` truncates toward zero: for n >= 0, 2q <= n <= 2q+1; for n < 0, 2q-1 <= n <= 2q <= 0 |
| Numeric.TruncToInt | src/main.cpp:210 | `static_cast<int>` truncates toward zero: n <= r < n+1 for r >= 0 and n-1 < r <= n for r < 0 |
| Vectors.LengthSquared | src/math.hpp:106-109 | the squared length is never negative |
| Vectors.DotSymmetric | src/math.hpp:128-131 | dot is symmetric and dot(v, v) is the squared length |
| Vectors.DotScale | src/math.hpp:128-131 | dot is linear in a scaled argument, on either side |
| Vectors.DotNeg | src/math.hpp:128-131 | negating either argument negates the dot product |
| Vectors.CrossOrthogonal | src/math.hpp:144-149 | the cross product is orthogonal to both factors |
| Vectors.CrossLengthSquared | src/math.hpp:144-149 | Lagrange's identity: the squared length of a x b is abs(a)^2 abs(b)^2 - (a.b)^2 |
| Vectors.ScaleOne | src/math.hpp:89-93 | scaling by 1 leaves a vector unchanged |
| Vectors.LengthSquaredScale | src/math.hpp:89-93 | scaling by s multiplies the squared length by s^2 |
| Vectors.LengthSquaredZero | src/math.hpp:106-109 | the squared length is 0 exactly for the zero vector (both directions) |
| Vectors.UnitVectorOfZero | src/math.hpp:112-120 | `unit_vector` of a zero-length vector takes the fallback branch and returns the zero vector |
| Vectors.UnitVectorIsUnit | src/math.hpp:112-120 | for a non-zero vector the length is positive and `unit_vector` returns a vector of length 1 |
| Vectors.UnitVectorUnitOrZero | src/math.hpp:112-120 | `unit_vector` always returns the zero vector or a unit vector |
| Vec4s.FromVec3 | src/Vec4.h:13 | the (Vec3, w) constructor keeps w |
| Vec4s.Xyz | src/Vec4.h:15 | `xyz` inverts the (Vec3, w) constructor |
| Vec4s.XyzOfFromVec3 | src/Vec4.h:13-15 | building from a Vec3 and taking `xyz` returns the Vec3 |
| Vec4s.DivideByW | src/Vec4.h:17-24 | `v /= v.w` gives w == 1 and divides the xyz part by w |
| Vec4s.LengthSquared4 | src/Vec4.h:29 | the 4-D squared length is never negative |
| Vec4s.LengthSquared4Zero | src/Vec4.h:29-30 | the 4-D squared length is 0 exactly for the zero vector |
| Vec4s.Normalize4OfZero | src/Vec4.h:28-35 | a zero-length vector is returned unchanged, and it is the zero vector |
| Vec4s.Normalize4IsUnit | src/Vec4.h:28-35 | a non-zero vector normalises to squared length 1 |
| Matrix44.NewMatrix | src/Matrix44.h:10-16 | the default constructor's loop zeroes all 16 entries |
| Matrix44.TransposeOf | src/Matrix44.h:43-56 | entry (i, j) of the transpose is entry (j, i) |
| Matrix44.Transpose | src/Matrix44.h:43-56 | the nested loop computes the transpose |
| Matrix44.TransposeInvolution | src/Matrix44.h:43-56 | transposing twice gives the original matrix |
| Matrix44.TranslationOf | src/Matrix44.h:59-79 | identity everywhere except entries 3, 7, 11, which hold x, y, z |
| Matrix44.TranslationEntries | src/Matrix44.h:59-79 | the translation matrix's diagonal is 1 and its bottom row is (0, 0, 0, 1) |
| Matrix44.Translation | src/Matrix44.h:59-79 | the loop and the stores build the translation matrix |
| Matrix44.TranslationMovesPoint | src/Matrix44.h:59-79 | a point (w = 1) is moved by (x, y, z) |
| Matrix44.TranslationKeepsDirection | src/Matrix44.h:59-79 | a direction (w = 0) is not changed |
| Matrix44.TranslationCancel | src/Matrix44.h:59-79 | translating by -p after translating by p is the identity |
| Matrix44.TranslationInverse | src/Matrix44.h:59-79 | the product of the two translations acts as the identity |
| Matrix44.FromAxes | src/Matrix44.h:101-126 | rows 0-2 are the three axes with w = 0 and row 3 is (0, 0, 0, 1) |
| Matrix44.FromAxesApply | src/Matrix44.h:101-126 | applying the axes matrix projects v onto each axis and keeps w |
| Matrix44.TransposeAxesApply | src/Matrix44.h:43-56 | the transposed axes matrix combines the axes with v's coordinates |
| Matrix44.AxesInverse | src/Matrix44.h:101-126 | for an orthonormal basis, the axes matrix undoes its transpose |
| Matrix44.ProductEntry | src/Matrix44.h:128-145 | each product entry is the full row-times-column sum |
| Matrix44.ProductIndex | src/Matrix44.h:128-145 | product entry (i, j) is component j of row i of A times B |
| Matrix44.ProductRow | src/Matrix44.h:128-145 | row i of the product is row i of A times B |
| Matrix44.Mul | src/Matrix44.h:128-145 | the triple loop with its accumulation computes the matrix product |
| Matrix44.RowTimesDot | src/Matrix44.h:34-41 | (row times B) . v == row . (B v) |
| Matrix44.ProductApply | src/Matrix44.h:34-41 | the layouts agree: (A B) v == A (B v) |
| Rays.At | src/ray.h:14-17 | at(t) - origin == t * direction |
| Rays.AtZero | src/ray.h:14-17 | at(0) is the origin |
| Rays.DefaultRayIsZero | src/ray.h:7 | the default ray has zero origin and direction, so every `at` is the origin |
| Hittables.SetFaceNormal | src/hittable.h:18-25 | front_face iff the ray opposes the outward normal; the stored normal is the outward one or its negation, always faces against the ray; p, t, mat unchanged |
| Hittables.DefaultRangeIsPositive | src/hittable.h:28-32 | a default `Range` starts at the smallest positive float, so every t in it is positive |
| Spheres.Record | src/sphere.h:33-39 | the record holds t, at(t), the sphere's material and the face-oriented (center-to-point)/radius normal |
| Spheres.Hit | src/sphere.h:13-41 | a hit lies strictly inside the range, is that root's record, and needs a >= 0 discriminant |
| Spheres.NegativeDiscriminantMisses | src/sphere.h:19-22 | a negative discriminant is a miss |
| Spheres.NearRootPreferred | src/sphere.h:27-32 | the near root wins if in range, else the far root if in range, else no hit |
| Spheres.RootsOrdered | src/sphere.h:24-29 | the near root is at most the far root |
| Spheres.RootOfQuadratic | src/sphere.h:14-29 | both candidate roots solve a t^2 + 2 half_b t + c == 0 |
| Spheres.HitSolvesQuadratic | src/sphere.h:13-41 | a reported t solves the ray-sphere quadratic |
| Spheres.SolutionOnSphere | src/sphere.h:14-17 | a solution of the quadratic is a point at distance radius from the centre |
| Spheres.HitOnSphere | src/sphere.h:33-35 | a reported hit point lies on the sphere |
| Spheres.HitShrinkEnd | src/sphere.h:28-31 | lowering the range's end keeps a hit below the new end and loses only hits at or beyond it |
| Spheres.UnitExample | src/sphere.h:13-41 | a ray along -z from the origin meets the radius-0.5 sphere centred at (0, 0, -1) at t = 0.5, in (0, 0, -0.5), front face, normal (0, 0, 1) |
| Spheres.UnitExampleRoot | src/sphere.h:14-27 | for that case the near root is 0.5 |
| Spheres.UnitExampleRecord | src/sphere.h:33-39 | for that case the record is the expected one |
| Scenes.Scene.constructor | src/Scene.h:11 | a new scene is empty |
| Scenes.Scene.Single | src/Scene.h:12 | the one-object constructor holds exactly that object |
| Scenes.Scene.Clear | src/Scene.h:14 | clear empties the object list |
| Scenes.Scene.Add | src/Scene.h:16-18 | add appends the object at the end |
| Scenes.Scene.Hit | src/Scene.h:20-35 | the loop that narrows closest_so_far computes the scan's result |
| Scenes.EmptySceneMisses | src/Scene.h:20-35 | an empty scene misses and leaves closest at the range end |
| Scenes.ScanNarrows | src/Scene.h:24-31 | closest_so_far never grows as objects are visited |
| Scenes.ScanNearest | src/Scene.h:20-35 | miss iff every object misses the full range; a hit has t below the range end and is some object's hit that no earlier object beats |
| Scenes.WinnerExtendNew | src/Scene.h:28-31 | a strictly closer hit from the next object becomes the winner |
| Scenes.WinnerExtendOld | src/Scene.h:26-31 | otherwise the current winner stays |
| Scenes.SceneHitInRange | src/Scene.h:20-35 | the scene's hit lies in the queried range |
| Scenes.SceneHitNearest | src/Scene.h:20-35 | if any object hits, the scene hits, no farther than that object's hit |
| Utils.RasterToNdcF | src/utils.h:18-21 | as written: x * width == point.x + 0.5 and y * height == point.x + 0.5 |
| Utils.RasterToNdcFIntended | src/utils.h:18-21 | corrected: the y component uses point.y |
| Utils.RasterToNdc | src/utils.h:23-26 | ndc * size == pixel + 0.5 per axis |
| Utils.RasterToNdcFUsesX | src/utils.h:18-26 | the point (0, 1) shows the float overload disagreeing with the int one and with the corrected version |
| Utils.RasterToNdcFIntendedAgrees | src/utils.h:18-26 | the corrected float overload agrees with the int overload on every integer point |
| Utils.PixelCentreInsideNdc | src/utils.h:23-26 | every pixel centre maps strictly inside (0, 1)^2 |
| Utils.NdcToScreen | src/utils.h:28-31 | screen x + 1 == 2 ndc x and 1 - screen y == 2 ndc y |
| Utils.NdcToScreenCorners | src/utils.h:28-31 | (0,0) goes to (-1,1) and (1,1) to (1,-1); the open unit square goes strictly inside [-1,1]^2; x order kept, y order reversed |
| Utils.NdcToScreenInjective | src/utils.h:28-31 | distinct NDC points go to distinct screen points |
| Utils.GptRasterToNdc | src/utils.h:94-101 | (ndcX + 1)(width - 1) == 2x and (1 - ndcY)(height - 1) == 2y |
| Utils.GptRasterToNdcPixel | src/utils.h:103-107 | the Vec2i overload forwards to the (x, y) one |
| Utils.GptRasterToNdcEnds | src/utils.h:94-101 | pixel (0, 0) goes to (-1, 1) and the last pixel to (1, -1) |
| Utils.NearZeroIsShort | src/utils.h:68-70 | a near-zero vector has squared length below 3 eps^2, and the zero vector is near zero |
| Utils.Reflect | src/utils.h:72-74 | reflect(v, n) + 2 (v.n) n == v |
| Utils.ReflectFlipsNormalPart | src/utils.h:72-74 | for a unit normal the reflection negates the normal component |
| Utils.ReflectTwice | src/utils.h:72-74 | for a unit normal, reflecting twice gives v back |
| Utils.Refract | src/utils.h:80-85 | for a unit normal and an unclamped cos_theta, the refracted direction's component along n is -sqrt(abs(1 - abs(perp)^2)) |
| Utils.RefractNormalPart | src/utils.h:82-84 | adding s n to the perpendicular part gives a component s along the unit normal |
| Utils.RefractLeavesSurface | src/utils.h:80-85 | the refracted ray never points to the normal's side: dot(refract, n) <= 0 |
| Utils.RefractPerpOrthogonal | src/utils.h:80-82 | for a unit normal and cos_theta not clamped, the perpendicular part is orthogonal to n |
| Utils.RefractIsUnit | src/utils.h:80-85 | in the no-total-internal-reflection case the refracted direction has length 1 |
| Materials.LambertianDirection | src/material.h:24-28 | the direction is normal + u, or the normal when that sum is near zero; a near-zero result means a near-zero normal |
| Materials.RefractionRatio | src/material.h:66 | 1/ir on the front face, ir on the back face |
| Materials.LambertianScatter | src/material.h:21-33 | always scatters, from the hit point, with the albedo as attenuation |
| Materials.MetalScatter | src/material.h:44-51 | attenuation is the albedo, origin the hit point; scatters iff the new direction is above the surface |
| Materials.DielectricScatter | src/material.h:62-73 | always scatters, from the hit point, with white attenuation and the refracted direction |
| Materials.Scatter | src/material.h:12-13 | dispatch on the material kind gives that law's result |
| Materials.OnlyMetalAbsorbs | src/material.h:21-73 | every scattered ray starts at the hit point, and only a metal can absorb |
| Materials.MirrorReflects | src/material.h:44-51 | a fuzz-0 metal hit from the front scatters along the mirror reflection |
| Materials.DielectricKeepsColour | src/material.h:65 | white attenuation leaves the incoming colour unchanged |
| Cameras.InverseProjectionOf | src/camera.h:77-86 | entries 0, 5, 11, 14, 15 hold f r, f t, -(f n), (n - f)/2, (n + f)/2 and every other entry is 0 |
| Cameras.Camera.constructor | src/camera.h:70-89 | keeps position, target, fov and aspect ratio; builds the inverse projection; sets the look-at basis; matrices consistent with it |
| Cameras.Camera.UpdateMatrices | src/camera.h:91-102 | recomputes worldToCamera = axes x translate(-p) and cameraToWorld = translate(p) x axes^T; nothing else changes |
| Cameras.Camera.LookAt | src/camera.h:105-126 | moves the eye, sets forward, zaxis, right and up from eye, target and hint; updates the matrices; leaves the projection alone |
| Cameras.LookAtOrthogonal | src/camera.h:108-114 | right, up and zaxis are pairwise orthogonal for every input |
| Cameras.LookAtParallelHint | src/camera.h:108-114 | an up hint parallel to the line of sight is not rejected: right and up come out zero |
| Cameras.LookAtOrthonormal | src/camera.h:108-114 | when the hint is not parallel to the line of sight, right, up and zaxis are orthonormal |
| Cameras.EyeAtOrigin | src/camera.h:91-95 | worldToCamera takes the eye to the camera-space origin |
| Cameras.CameraRoundTrip | src/camera.h:99-101 | for an orthonormal basis, worldToCamera x cameraToWorld acts as the identity |
| Cameras.CameraRayOf | src/camera.h:139-155 | camera rays start at the camera-space origin |
| Cameras.UnprojectedW | src/camera.h:152-153 | with a zero bottom row apart from entry 15, the unprojected w is entry 15 for every screen point |
| Cameras.InverseProjectionW | src/camera.h:82-86 | the constructor's matrix has that shape, with w = (n + f)/2 |
| Cameras.CentreUnprojected | src/camera.h:152 | the screen centre unprojects to (0, 0, -(f n), (n + f)/2) |
| Cameras.CentreRay | src/camera.h:139-155 | with positive near and far planes the screen centre's ray runs straight down -z |
| Cameras.WorldRayOf | src/camera.h:162-166 | world rays start at the camera position |
| Cameras.WorldRayFromEye | src/camera.h:162-166 | world rays start at the eye along a unit or zero direction |
| Tracing.IntersectIsNearRoot | src/main.cpp:22-38 | no hit iff a == 0 or the discriminant is negative; otherwise the near root, the same value the sphere's half-b formula gives |
| Tracing.Sky | src/main.cpp:81-83 | the sky colour's blue channel is always 1 |
| Tracing.SkyStraightUp | src/main.cpp:81-83 | straight up the sky is (0.5, 0.7, 1.0) |
| Tracing.SkyStraightDown | src/main.cpp:81-83 | straight down the sky is white |
| Tracing.SkyInUnitCube | src/main.cpp:81-83 | every sky colour lies in [0, 1]^3 |
| Tracing.UnitNormalShade | src/main.cpp:49 | a unit normal shades to a colour in [0, 1]^3 |
| Tracing.HitNormalIsUnit | src/sphere.h:38-39 | the normal stored in a sphere hit has length 1 |
| Tracing.TraceNormals | src/main.cpp:41-56 | the early-return loop colours the first sphere hit with t > 0 by its normal, and a miss by the sky |
| Tracing.FirstHitIsFirst | src/main.cpp:42-51 | no first hit iff every sphere misses; otherwise the first sphere that hits, all earlier ones missing |
| Tracing.NormalsColourInUnitCube | src/main.cpp:41-56 | the normals tracer's colour lies in [0, 1]^3 |
| Tracing.Trace | src/main.cpp:58-84 | the recursive tracer computes the path colour: black at depth 0, sky on a miss, black when absorbed, attenuation x the scattered path's colour |
| Tracing.TraceHitIsAhead | src/main.cpp:63-64 | a hit from the query over [0.001, FLT_MAX) has t > 0 |
| Tracing.TraceMissIsSky | src/main.cpp:81-83 | when every sphere misses, a path with depth left returns the sky colour |
| Tracing.TraceExhausted | src/main.cpp:59-60 | at depth <= 0 the path colour is black |
| Tracing.TraceInUnitCube | src/main.cpp:58-84 | with albedos in [0, 1]^3 every path colour lies in [0, 1]^3 |
| Sampling.GetPixelsInt | src/main.cpp:147-168 | the nested loops emit the clipped window's points in row-major order |
| Sampling.WindowMembership | src/main.cpp:161-165 | a point is emitted iff it lies in the window's rectangle |
| Sampling.WindowCount | src/main.cpp:161-165 | the window has (columns x rows) points |
| Sampling.WindowRowMajor | src/main.cpp:161-165 | the point (x, y) sits at index (y - y0) x columns + (x - x0) |
| Sampling.GetPixelsIntContents | src/main.cpp:147-168 | a point is returned iff it is inside the image and within the truncated half window of the pixel |
| Sampling.Jitter | src/main.cpp:133-139 | each sample lies in [-1, 1]^2 |
| Sampling.GetPixelsFloat | src/main.cpp:122-145 | the loop emits one jittered sample per draw |
| Sampling.SamplesOnScreen | src/main.cpp:132-142 | there are max(0, numSamples) samples, all in [-1, 1]^2 |
| Sampling.SampleInWindow | src/main.cpp:133-139 | for an on-screen point each sample lies within half the window of it |
| Sampling.ZeroWindowSamples | src/main.cpp:122-145 | a zero window makes every sample the point itself |
| Sampling.Quantize | src/main.cpp:205-212 | a stored channel is always in 0..255 |
| Sampling.QuantizeEnds | src/main.cpp:210 | colour 0 stores 0 and colour 1 stores 255 |
| Sampling.QuantizeMonotone | src/main.cpp:205-212 | brighter non-negative channels never store smaller values |
| Images.Image.constructor | src/image.h:14-19 | keeps width, height and channels; allocates width x height x channels zeroed elements |
| Images.Image.Size | src/image.h:56-59 | size() is (width, height) |
| Images.PixelOffsetRowMajor | src/image.h:50-54 | pixel (x, y) starts at element (y width + x) x channels |
| Images.PixelInBounds | src/image.h:50-54 | every pixel's channels lie inside the buffer |
| Images.PixelsDisjoint | src/image.h:50-54 | distinct pixels have disjoint channel ranges |
| Images.RowOffsetsAgreeForBytes | src/image.h:45-54 | for one-byte elements the non-const and const row accessors agree |
| Images.RowOffsetAsWrittenOverruns | src/image.h:45-48 | width 1, height 2, 3 channels, 4-byte elements: row 1 starts at element 12 of 6 |
| Images.RowOffsetAsWrittenPastEnd | src/image.h:45-48 | with elements of 2+ bytes and 2+ rows, the last row starts past the buffer end |
| Rendering.RenderPixel | src/main.cpp:183-196 | the sample loop gives the pixel colour: the mean of 500 traced jittered samples around the pixel's screen point |
| Rendering.StorePixel | src/main.cpp:198-212 | the pixel's three channels get the quantised colour and no other element changes |
| Rendering.MSAA | src/main.cpp:171-216 | afterwards every pixel of the image holds its quantised pixel colour |
| Rendering.SamplesAroundCentre | src/main.cpp:183-186 | the pixel centre is strictly inside the screen and each sample lies within half the window of it |
| Rendering.PixelColourInUnitCube | src/main.cpp:188-196 | with albedos in [0, 1]^3 the averaged colour lies in [0, 1]^3 |
| Rendering.UniformSceneRendersUniformly | src/main.cpp:188-196 | if every sample traces to the same colour c, the pixel colour is exactly c |
| Vectors.Dot | src/math.hpp:128-131 | definition; properties in Vectors.DotSymmetric, Vectors.DotScale, Vectors.DotNeg |
| Vectors.Cross | src/math.hpp:144-149 | definition; properties in Vectors.CrossOrthogonal, Vectors.CrossLengthSquared |
| Vectors.UnitVector | src/math.hpp:112-120 | definition; properties in Vectors.UnitVectorOfZero, Vectors.UnitVectorIsUnit, Vectors.UnitVectorUnitOrZero |
| Vectors.Mul | src/utils.h:76-78 | definition; properties in Materials.DielectricKeepsColour, Tracing.MulInUnitCube |
| Vec4s.Div4 | src/Vec4.h:17-24 | definition; properties in Vec4s.DivideByW |
| Vec4s.Normalize4 | src/Vec4.h:28-35 | definition; properties in Vec4s.Normalize4OfZero, Vec4s.Normalize4IsUnit |
| Matrix44.Apply | src/Matrix44.h:34-41 | definition; properties in Matrix44.ProductApply, Matrix44.FromAxesApply, Matrix44.TranslationMovesPoint |
| Hittables.DefaultRange | src/hittable.h:28-32 | definition; properties in Hittables.DefaultRangeIsPositive |
| Spheres.NearRoot | src/sphere.h:27 | definition; properties in Spheres.RootsOrdered, Spheres.RootOfQuadratic, Spheres.NearRootPreferred |
| Spheres.FarRoot | src/sphere.h:29 | definition; properties in Spheres.RootsOrdered, Spheres.RootOfQuadratic, Spheres.NearRootPreferred |
| Scenes.Scan | src/Scene.h:20-35 | definition; properties in Scenes.ScanNearest, Scenes.SceneHitInRange, Scenes.SceneHitNearest |
| Utils.NearZero | src/utils.h:68-70 | definition; properties in Utils.NearZeroIsShort, Materials.LambertianDirection |
| Materials.MetalDirection | src/material.h:47-48 | definition; properties in Materials.MirrorReflects |
| Materials.ScatterOf | src/material.h:21-73 | definition; properties in Materials.OnlyMetalAbsorbs and the three scatter methods |
| Cameras.LookAtBasis | src/camera.h:108-114 | definition; properties in Cameras.LookAtOrthogonal, Cameras.LookAtOrthonormal, Cameras.LookAtParallelHint |
| Cameras.ToWorldOf | src/camera.h:128-132 | definition; properties in Cameras.ToWorldUnitOrZero |
| Cameras.ToWorldUnitOrZero | src/camera.h:128-132 | `ToWorld` returns a unit direction or the zero vector |
| Cameras.WorldToCameraPointOf | src/camera.h:134-137 | definition; properties in Cameras.EyeAtOrigin |
| Cameras.Camera.ToWorld | src/camera.h:128-132 | definition; properties in Cameras.ToWorldUnitOrZero |
| Cameras.Camera.WorldToCamera | src/camera.h:134-137 | definition; properties in Cameras.EyeAtOrigin |
| Cameras.Camera.GenerateRay | src/camera.h:139-160 | definition; properties in Cameras.CameraRayOf, Cameras.CentreRay |
| Cameras.Camera.GenerateWorldRay | src/camera.h:162-166 | definition; properties in Cameras.WorldRayOf, Cameras.WorldRayFromEye |
| Tracing.Intersect | src/main.cpp:22-38 | definition; properties in Tracing.IntersectIsNearRoot |
| Tracing.NormalShade | src/main.cpp:49 | definition; properties in Tracing.UnitNormalShade |
| Tracing.FirstHit | src/main.cpp:42-51 | definition; properties in Tracing.FirstHitIsFirst |
| Tracing.NormalsColour | src/main.cpp:41-56 | definition; properties in Tracing.NormalsColourInUnitCube |
| Tracing.TraceColour | src/main.cpp:58-84 | definition; properties in Tracing.TraceInUnitCube, Tracing.TraceMissIsSky, Tracing.TraceExhausted, Tracing.TraceHitIsAhead |
| Sampling.WindowOf | src/main.cpp:148-155 | definition; properties in Sampling.GetPixelsIntContents |
| Sampling.JitteredSamples | src/main.cpp:122-145 | definition; properties in Sampling.SamplesOnScreen, Sampling.SampleInWindow, Sampling.ZeroWindowSamples |
| Images.RowOffset | src/image.h:50-54 | definition; properties in Images.PixelInBounds, Images.RowOffsetsAgreeForBytes |
| Images.RowOffsetAsWritten | src/image.h:45-48 | definition; properties in Images.RowOffsetAsWrittenOverruns, Images.RowOffsetAsWrittenPastEnd |
| Images.PixelOffset | src/image.h:32-38 | definition; properties in Images.PixelOffsetRowMajor, Images.PixelInBounds, Images.PixelsDisjoint |
| Rendering.ScreenPoint | src/main.cpp:183 | definition; properties in Rendering.SamplesAroundCentre |
| Rendering.SampleWindow | src/main.cpp:186 | definition; properties in Rendering.SamplesAroundCentre |
| Rendering.PixelColour | src/main.cpp:183-196 | definition; properties in Rendering.PixelColourInUnitCube, Rendering.UniformSceneRendersUniformly |

## Left out

- Floating-point rounding, overflow, NaN and infinity: numbers are `real`. `FLT_MIN` and `FLT_MAX` keep their exact values as constants.
- `sqrt` and `tan` are parameters rather than library calls. Properties that need the square-root law assume it through `IsSqrt`.
- Randomness (`random_unit_vector`, `random_in_unit_sphere`, `generate_random_vec3`, `random_float`, `random_vec3`, the distributions in `get_pixels`) is not modelled. The draws are parameters (`draw`, `jitter`, `paths`), so the model holds for every sequence of draws. `random_on_hemisphere` is unused by the pipeline.
- `write_color`, `save_ppm` and `main`, including the random scene construction, are I/O or program setup. `write_color`'s per-channel formula is the one modelled by `Sampling.Quantize`.
- Image elements are `int`, not `char`. The value stored is the quantised channel in 0..255; the narrowing to a possibly signed `char` is not modelled.
- Intersect: the source divides by 2a even when the ray direction is zero (a == 0), giving a non-finite t. The model returns no hit for a == 0. `Spheres.Hit` likewise reports no hit when a == 0.
- Spheres.Sphere: the radius is a non-zero real, because the normal divides by it.
- Materials.Material: the dielectric's index of refraction is non-zero, because the ratio divides by it.
- The random unit vector of `lambertian` and `metal` is the parameter `u`. The metal's fuzz is a field of `Metal`, and `Materials.MetalDirection` adds fuzz times `u` to the reflection. No bound on the scattered ray's length is claimed.
- Rendering.MSAA requires `FiniteUnprojection`: the inverse projection's bottom row is zero apart from a non-zero last entry. `generateRay` divides by the unprojected w. The camera built by the constructor has that shape, by `Cameras.InverseProjectionW`, whenever near + far != 0.
- Rendering.MSAA: the unused `generateRay` call in the sample loop is not modelled; it has no effect.
- Rendering.RenderPixel and Rendering.StorePixel are the two halves of the `MSAA` loop body, split out as methods. The pixel's colour accumulation (`+=`, `/=` on a local `Color`) is modelled on values.
- Rendering.MSAA: the average divides by the sample count. `get_pixels(Vec2f)` always returns exactly 500 samples here, so the divisor is 500.
- Cameras.Camera.LookAt: the viewport width and height it computes are never used and are not modelled. The `test` product in `updateMatrices` is unused; what it would show is stated by `Cameras.CameraRoundTrip`.
- `degrees_to_radians` is not a separate member; the same conversion is the camera's `Theta`.
- `gpt::ndcToScreen` is not modelled: nothing in the rendering pipeline calls it.
- The image's `RowProxy::operator()` span accessor is not modelled: it is unused and passes an ill-formed argument list.
- Sampling.GetPixelsInt: the `reserve` call is a capacity hint with no effect on the contents and is not modelled.
- Tracing.TraceNormals and the `trace(ray, spheres)` overload are modelled, although `MSAA` only calls `trace(scene, ray, depth)`.
- Hittables.SetFaceNormal returns the updated record instead of updating it in place; the record is a value struct.
- Scenes.Scene holds spheres, the only kind of object the program creates. Virtual dispatch on `Hittable` and the shared pointers are not modelled.

## Findings

| source | as written | input that shows it | evidently intended | confidence | as-written member | corrected member |
|---|---|---|---|---|---|---|
| src/utils.h:18-21 | `raster_to_NDC(Vec2f)` computes the y coordinate from `point.x` | point (0, 1), image 1x1: result (0.5, 0.5) instead of (0.5, 1.5) | y from `point.y`, as in the `Vec2i` overload; the overload's only call is the commented-out src/main.cpp:184, and `MSAA` uses the `Vec2i` overload (src/main.cpp:183), so the rendered image is unaffected | not executed | Utils.RasterToNdcF, Utils.RasterToNdcFUsesX | Utils.RasterToNdcFIntended, Utils.RasterToNdcFIntendedAgrees |
| src/image.h:46 | the non-const `operator[]` multiplies the row offset by `sizeof(T)`, although pointer arithmetic on `T*` already counts in elements | `Image<int, 3>` of width 1, height 2: row 1 starts at element 12 of a 6-element buffer | offset `row * width * numChannels`, as in the const `operator[]` | not executed | Images.RowOffsetAsWritten, Images.RowOffsetAsWrittenOverruns | Images.RowOffset, Images.PixelInBounds |
