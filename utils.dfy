/** The coordinate conversions and vector helpers of src/utils.h: raster to normalised
    device coordinates (NDC) and on to screen space, near_zero, reflect, refract and the
    alternative conversion in namespace gpt. */
module Utils {
  import opened Numeric
  import opened Vectors

  // ---------------------------------------------------------------- raster -> NDC -> screen

  /** `raster_to_NDC(Vec2f, w, h)` as written: point.x feeds both components. */
  function RasterToNdcF(point: Vec2f, width: int, height: int): (r: Vec2f)
    requires width != 0 && height != 0
    ensures r.x * width as real == point.x + 0.5
    ensures r.y * height as real == point.x + 0.5
  {
    Vec2f((point.x + 0.5) / width as real, (point.x + 0.5) / height as real)
  }

  /** The evidently intended `raster_to_NDC(Vec2f, w, h)`: y comes from point.y. */
  function RasterToNdcFIntended(point: Vec2f, width: int, height: int): (r: Vec2f)
    requires width != 0 && height != 0
    ensures r.x * width as real == point.x + 0.5
    ensures r.y * height as real == point.y + 0.5
  {
    Vec2f((point.x + 0.5) / width as real, (point.y + 0.5) / height as real)
  }

  /** `raster_to_NDC(Vec2i, w, h)`: the centre of pixel (x, y) scaled into [0, 1]^2. */
  function RasterToNdc(point: Vec2i, width: int, height: int): (r: Vec2f)
    requires width != 0 && height != 0
    ensures r.x * width as real == point.x as real + 0.5
    ensures r.y * height as real == point.y as real + 0.5
  {
    Vec2f((point.x as real + 0.5) / width as real, (point.y as real + 0.5) / height as real)
  }

  /** `NDC_to_screen_space(p)`: x stretched to [-1, 1], y stretched and flipped. */
  function NdcToScreen(p: Vec2f): (r: Vec2f)
    ensures r.x + 1.0 == 2.0 * p.x && 1.0 - r.y == 2.0 * p.y
  {
    Vec2f(2.0 * p.x - 1.0, 1.0 - 2.0 * p.y)
  }

  /** The Vec2f overload as written sends raster point (0, 1) of a 1x1 image to the NDC
      y of point (0, 0): it disagrees with the Vec2i overload and with the intended one. */
  lemma RasterToNdcFUsesX()
    ensures RasterToNdcF(Vec2f(0.0, 1.0), 1, 1) == Vec2f(0.5, 0.5)
    ensures RasterToNdc(Vec2i(0, 1), 1, 1) == Vec2f(0.5, 1.5)
    ensures RasterToNdcF(Vec2f(0.0, 1.0), 1, 1) != RasterToNdcFIntended(Vec2f(0.0, 1.0), 1, 1)
  {
  }

  /** The intended Vec2f overload agrees with the Vec2i one on every whole-number point. */
  lemma RasterToNdcFIntendedAgrees(point: Vec2i, width: int, height: int)
    requires width != 0 && height != 0
    ensures RasterToNdcFIntended(Vec2f(point.x as real, point.y as real), width, height)
         == RasterToNdc(point, width, height)
  {
  }

  /** The centre of a pixel inside the image lands strictly inside (0, 1)^2. */
  lemma PixelCentreInsideNdc(point: Vec2i, width: int, height: int)
    requires 0 <= point.x < width && 0 <= point.y < height
    ensures var r := RasterToNdc(point, width, height);
            0.0 < r.x < 1.0 && 0.0 < r.y < 1.0
  {
    var r := RasterToNdc(point, width, height);
    QuotientBetween(point.x as real + 0.5, width as real, r.x);
    QuotientBetween(point.y as real + 0.5, height as real, r.y);
  }

  /** If q * d == n with 0 < n < d, then 0 < q < 1. */
  lemma QuotientBetween(n: real, d: real, q: real)
    requires 0.0 < n < d && q * d == n
    ensures 0.0 < q < 1.0
  {
    MulMonotone(q, 0.0, d);
    MulMonotone(1.0, q, d);
  }

  /** Multiplying by a non-negative number keeps order. */
  lemma MulMonotone(a: real, b: real, c: real)
    ensures 0.0 <= c && a <= b ==> a * c <= b * c
  {
    if 0.0 <= c && a <= b {
      assert b * c - a * c == (b - a) * c;
    }
  }

  /** The NDC corners go to the screen corners: (0,0) to (-1,1) and (1,1) to (1,-1);
      the square (0,1)^2 goes to (-1,1)^2 with x order kept and y order reversed. */
  lemma NdcToScreenCorners(p: Vec2f, q: Vec2f)
    ensures NdcToScreen(Vec2f(0.0, 0.0)) == Vec2f(-1.0, 1.0)
    ensures NdcToScreen(Vec2f(1.0, 1.0)) == Vec2f(1.0, -1.0)
    ensures 0.0 < p.x < 1.0 && 0.0 < p.y < 1.0 ==>
              -1.0 < NdcToScreen(p).x < 1.0 && -1.0 < NdcToScreen(p).y < 1.0
    ensures p.x < q.x ==> NdcToScreen(p).x < NdcToScreen(q).x
    ensures p.y < q.y ==> NdcToScreen(p).y > NdcToScreen(q).y
  {
  }

  /** NDC_to_screen_space loses nothing: distinct points stay distinct. */
  lemma NdcToScreenInjective(p: Vec2f, q: Vec2f)
    ensures NdcToScreen(p) == NdcToScreen(q) ==> p == q
  {
  }

  // ---------------------------------------------------------------- gpt::rasterToNDC

  /** `gpt::rasterToNDC(x, y, w, h)`: pixel 0 and pixel w-1 at the two ends of [-1, 1],
      y pointing up. */
  function GptRasterToNdc(x: int, y: int, width: int, height: int): (r: Vec2f)
    requires width != 1 && height != 1
    ensures (r.x + 1.0) * (width - 1) as real == 2.0 * x as real
    ensures (1.0 - r.y) * (height - 1) as real == 2.0 * y as real
  {
    Vec2f((2.0 * x as real) / (width - 1) as real - 1.0,
          1.0 - (2.0 * y as real) / (height - 1) as real)
  }

  /** `gpt::rasterToNDC(pixel, w, h)`: the same on a Vec2i. */
  function GptRasterToNdcPixel(pixel: Vec2i, width: int, height: int): (r: Vec2f)
    requires width != 1 && height != 1
    ensures r == GptRasterToNdc(pixel.x, pixel.y, width, height)
  {
    GptRasterToNdc(pixel.x, pixel.y, width, height)
  }

  /** The first column maps to x = -1 and the last to x = 1; the first row maps to y = 1
      and the last to y = -1. */
  lemma GptRasterToNdcEnds(width: int, height: int)
    requires 1 < width && 1 < height
    ensures GptRasterToNdc(0, 0, width, height) == Vec2f(-1.0, 1.0)
    ensures GptRasterToNdc(width - 1, height - 1, width, height) == Vec2f(1.0, -1.0)
  {
    var r := GptRasterToNdc(width - 1, height - 1, width, height);
    var w1, h1 := (width - 1) as real, (height - 1) as real;
    assert (r.x + 1.0) * w1 == 2.0 * w1;
    assert (r.x - 1.0) * w1 == 0.0;
    ZeroProduct(r.x - 1.0, w1);
    assert (1.0 - r.y) * h1 == 2.0 * h1;
    assert (-1.0 - r.y) * h1 == 0.0;
    ZeroProduct(-1.0 - r.y, h1);
  }

  // ---------------------------------------------------------------- near_zero, reflect, refract

  /** The default epsilon of near_zero. */
  const NearZeroEpsilon: real := 0.00000001

  /** `near_zero(v, eps)`: every component is smaller than eps in absolute value. */
  predicate NearZero(v: Vec3, epsilon: real) {
    Abs(v.x) < epsilon && Abs(v.y) < epsilon && Abs(v.z) < epsilon
  }

  /** A near-zero vector is short: its squared length is below 3 eps^2; and the zero
      vector is near zero for every positive eps. */
  lemma NearZeroIsShort(v: Vec3, epsilon: real)
    ensures NearZero(v, epsilon) ==> LengthSquared(v) < 3.0 * epsilon * epsilon
    ensures 0.0 < epsilon ==> NearZero(Zero3, epsilon)
  {
    if NearZero(v, epsilon) {
      SquareBelow(v.x, epsilon);
      SquareBelow(v.y, epsilon);
      SquareBelow(v.z, epsilon);
    }
  }

  /** |a| < e gives a^2 < e^2. */
  lemma SquareBelow(a: real, e: real)
    requires Abs(a) < e
    ensures a * a < e * e
  {
    SquaresOrdered(Abs(a), e);
    AbsSquare(a);
  }

  lemma SquaresOrdered(b: real, e: real)
    requires 0.0 <= b < e
    ensures b * b < e * e
  {
    PositiveProduct(e - b, e + b);
    assert (e - b) * (e + b) == e * e - b * b;
  }

  lemma AbsSquare(a: real)
    ensures Abs(a) * Abs(a) == a * a
  {
    NegTimes(a, a);
    NegTimes(-a, a);
  }

  /** `reflect(v, n)`: v - 2 (v . n) n. */
  function Reflect(v: Vec3, n: Vec3): (r: Vec3)
    ensures Add(r, Scale(n, 2.0 * Dot(v, n))) == v
  {
    Sub(v, Scale(n, 2.0 * Dot(v, n)))
  }

  /** Against a unit normal, reflection flips the normal component of v ... */
  lemma ReflectFlipsNormalPart(v: Vec3, n: Vec3)
    requires LengthSquared(n) == 1.0
    ensures Dot(Reflect(v, n), n) == -Dot(v, n)
  {
    var k := 2.0 * Dot(v, n);
    DotSub(v, Scale(n, k), n);
    DotScale(n, k, n);
    DotSymmetric(n, n);
  }

  /** ... so reflecting twice gives v back. */
  lemma ReflectTwice(v: Vec3, n: Vec3)
    requires LengthSquared(n) == 1.0
    ensures Reflect(Reflect(v, n), n) == v
  {
    ReflectFlipsNormalPart(v, n);
    var d := Dot(v, n);
    assert Reflect(Reflect(v, n), n) == Add(Sub(v, Scale(n, 2.0 * d)), Scale(n, 2.0 * d));
  }

  lemma DotSub(a: Vec3, b: Vec3, c: Vec3)
    ensures Dot(Sub(a, b), c) == Dot(a, c) - Dot(b, c)
  {
  }

  /** The component of uv perpendicular to n, scaled by the ratio of refraction indices. */
  function RefractPerp(uv: Vec3, n: Vec3, ratio: real): Vec3 {
    var cosTheta := MinReal(Dot(Neg(uv), n), 1.0);
    Scale(Add(uv, Scale(n, cosTheta)), ratio)
  }

  /** `refract(uv, n, ratio)`: the perpendicular part plus -sqrt(|1 - |perp|^2|) n.  For a
      unit normal and an unclamped cos_theta, that second term is all of the result's
      component along n. */
  function Refract(uv: Vec3, n: Vec3, ratio: real, sqrt: real -> real): (r: Vec3)
    ensures LengthSquared(n) == 1.0 && Dot(Neg(uv), n) <= 1.0 ==>
              Dot(r, n) == -sqrt(Abs(1.0 - LengthSquared(RefractPerp(uv, n, ratio))))
  {
    var perp := RefractPerp(uv, n, ratio);
    var s := -sqrt(Abs(1.0 - LengthSquared(perp)));
    RefractNormalPart(uv, n, ratio, s);
    Add(perp, Scale(n, s))
  }

  /** Adding s n to the perpendicular part gives a vector whose component along the unit
      normal is s. */
  lemma RefractNormalPart(uv: Vec3, n: Vec3, ratio: real, s: real)
    ensures LengthSquared(n) == 1.0 && Dot(Neg(uv), n) <= 1.0 ==>
              Dot(Add(RefractPerp(uv, n, ratio), Scale(n, s)), n) == s
  {
    if LengthSquared(n) == 1.0 && Dot(Neg(uv), n) <= 1.0 {
      var perp := RefractPerp(uv, n, ratio);
      RefractPerpOrthogonal(uv, n, ratio);
      DotAdd(perp, Scale(n, s), n);
      DotScale(n, s, n);
      DotSymmetric(n, n);
    }
  }

  /** The refracted ray leaves through the surface: it never points to the side the unit
      normal points to. */
  lemma RefractLeavesSurface(uv: Vec3, n: Vec3, ratio: real, sqrt: real -> real)
    requires IsSqrt(sqrt)
    requires LengthSquared(n) == 1.0
    requires Dot(Neg(uv), n) <= 1.0
    ensures Dot(Refract(uv, n, ratio, sqrt), n) <= 0.0
  {
    var perp := RefractPerp(uv, n, ratio);
    SqrtSquared(sqrt, Abs(1.0 - LengthSquared(perp)));
  }

  /** With a unit normal and cos_theta not clamped, the perpendicular part is
      perpendicular to n. */
  lemma RefractPerpOrthogonal(uv: Vec3, n: Vec3, ratio: real)
    requires LengthSquared(n) == 1.0
    requires Dot(Neg(uv), n) <= 1.0
    ensures Dot(RefractPerp(uv, n, ratio), n) == 0.0
  {
    var c := Dot(Neg(uv), n);
    DotNeg(uv, n);
    DotScale(Add(uv, Scale(n, c)), ratio, n);
    DotAdd(uv, Scale(n, c), n);
    DotScale(n, c, n);
    DotSymmetric(n, n);
  }

  lemma DotAdd(a: Vec3, b: Vec3, c: Vec3)
    ensures Dot(Add(a, b), c) == Dot(a, c) + Dot(b, c)
  {
  }

  /** Then, when |perp| <= 1, the refracted direction has unit length. */
  lemma RefractIsUnit(uv: Vec3, n: Vec3, ratio: real, sqrt: real -> real)
    requires IsSqrt(sqrt)
    requires LengthSquared(n) == 1.0
    requires Dot(Neg(uv), n) <= 1.0
    requires LengthSquared(RefractPerp(uv, n, ratio)) <= 1.0
    ensures LengthSquared(Refract(uv, n, ratio, sqrt)) == 1.0
  {
    var perp := RefractPerp(uv, n, ratio);
    var s := -sqrt(Abs(1.0 - LengthSquared(perp)));
    RefractPerpOrthogonal(uv, n, ratio);
    SqrtSquared(sqrt, Abs(1.0 - LengthSquared(perp)));
    assert s * s == 1.0 - LengthSquared(perp);
    LengthSquaredOrthogonalSum(perp, n, s);
  }

  /** |p + s n|^2 = |p|^2 + s^2 when p is perpendicular to the unit vector n. */
  lemma LengthSquaredOrthogonalSum(p: Vec3, n: Vec3, s: real)
    requires Dot(p, n) == 0.0 && LengthSquared(n) == 1.0
    ensures LengthSquared(Add(p, Scale(n, s))) == LengthSquared(p) + s * s
  {
    ExpandSum(p, n, s);
  }

  lemma ExpandSum(p: Vec3, n: Vec3, s: real)
    ensures LengthSquared(Add(p, Scale(n, s)))
         == LengthSquared(p) + 2.0 * s * Dot(p, n) + s * s * LengthSquared(n)
  {
  }
}
