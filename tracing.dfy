/** The three ray-colour functions of src/main.cpp: the quadratic `intersect` test, the
    normal-shading `trace(ray, spheres)` and the recursive path tracer
    `trace(scene, ray, depth)`, together with the sky gradient both tracers fall back to. */
module Tracing {
  import opened Numeric
  import opened Vectors
  import opened Options
  import opened Rays
  import opened Hittables
  import opened Spheres
  import opened Scenes
  import opened Materials
  import opened Utils

  // ---------------------------------------------------------------- intersect

  /** `intersect(sphere, origin, dir)`: the full-b form of the quadratic, returning the
      smaller root whenever the discriminant is non-negative, whatever its sign.  A zero
      direction (a == 0) makes the source divide by zero; the model reports no root. */
  function Intersect(s: Sphere, rayOrigin: Vec3, rayDir: Vec3, sqrt: real -> real): Option<real> {
    var oc := Sub(rayOrigin, s.center);
    FullBRoot(Dot(rayDir, rayDir), 2.0 * Dot(oc, rayDir), Dot(oc, oc) - s.radius * s.radius, sqrt)
  }

  /** The smaller root of a*t^2 + b*t + c, when the discriminant b^2 - 4ac is not negative. */
  function FullBRoot(a: real, b: real, c: real, sqrt: real -> real): Option<real> {
    var discriminant := b * b - 4.0 * a * c;
    if discriminant < 0.0 || a == 0.0 then None
    else Some((-b - sqrt(discriminant)) / (2.0 * a))
  }

  /** The full-b test agrees with the half-b quadratic of Sphere::hit: it finds a root
      exactly when that discriminant is non-negative (for a non-zero direction), and the
      root it returns is the near root, which solves the sphere's quadratic. */
  lemma IntersectIsNearRoot(s: Sphere, r: Ray, sqrt: real -> real)
    requires IsSqrt(sqrt)
    ensures Intersect(s, r.origin, r.direction, sqrt).None? <==>
            (QuadA(r) == 0.0 || Discriminant(s, r) < 0.0)
    ensures Intersect(s, r.origin, r.direction, sqrt).Some? ==>
            QuadA(r) != 0.0 &&
            Intersect(s, r.origin, r.direction, sqrt).value == NearRoot(s, r, sqrt)
  {
    var a, hb, c := QuadA(r), HalfB(s, r), QuadC(s, r);
    IntersectAsFullB(s, r, sqrt);
    FullBRootOfHalfB(a, hb, c, sqrt);
    assert Discriminant(s, r) == hb * hb - a * c;
    if a != 0.0 && 0.0 <= Discriminant(s, r) {
      assert NearRoot(s, r, sqrt) == (-hb - sqrt(hb * hb - a * c)) / a;
    }
  }

  /** `intersect` on the ray's own origin and direction, in terms of the sphere's
      quadratic: a = |dir|^2, b = 2 * half_b, c = |oc|^2 - radius^2. */
  lemma IntersectAsFullB(s: Sphere, r: Ray, sqrt: real -> real)
    ensures Intersect(s, r.origin, r.direction, sqrt)
         == FullBRoot(QuadA(r), 2.0 * HalfB(s, r), QuadC(s, r), sqrt)
  {
    DotSymmetric(r.direction, r.direction);
    DotSymmetric(Sub(r.origin, s.center), Sub(r.origin, s.center));
  }

  /** With b = 2 * halfB the full-b root is the half-b root (-halfB - sqrt(d)) / a, where
      d = halfB^2 - a*c. */
  lemma FullBRootOfHalfB(a: real, hb: real, c: real, sqrt: real -> real)
    requires IsSqrt(sqrt)
    ensures var d := hb * hb - a * c;
            (FullBRoot(a, 2.0 * hb, c, sqrt).None? <==> (a == 0.0 || d < 0.0)) &&
            (FullBRoot(a, 2.0 * hb, c, sqrt).Some? ==>
               FullBRoot(a, 2.0 * hb, c, sqrt).value == (-hb - sqrt(d)) / a)
  {
    var b := 2.0 * hb;
    var d := hb * hb - a * c;
    var disc := b * b - 4.0 * a * c;
    assert disc == 4.0 * d by {
      FourfoldDiscriminant(hb, a, c);
    }
    if 0.0 <= d && a != 0.0 {
      var sd := sqrt(d);
      assert sqrt(disc) == 2.0 * sd by {
        SqrtSquared(sqrt, d);
        SqrtUnique(sqrt, 4.0 * d, 2.0 * sd);
      }
      HalveQuotient(hb, sd, a);
    }
  }

  lemma FourfoldDiscriminant(hb: real, a: real, c: real)
    ensures (2.0 * hb) * (2.0 * hb) - 4.0 * a * c == 4.0 * (hb * hb - a * c)
  {
  }

  lemma HalveQuotient(hb: real, sd: real, a: real)
    requires a != 0.0
    ensures (-(2.0 * hb) - 2.0 * sd) / (2.0 * a) == (-hb - sd) / a
  {
    assert -(2.0 * hb) - 2.0 * sd == 2.0 * (-hb - sd);
  }

  // ---------------------------------------------------------------- colours

  predicate InUnitCube(c: Vec3) {
    0.0 <= c.x <= 1.0 && 0.0 <= c.y <= 1.0 && 0.0 <= c.z <= 1.0
  }

  /** The background: white blended towards (0.5, 0.7, 1.0) by a = (unit.y + 1) / 2.  The
      blue channel is 1 in both colours, so it is 1 whatever the direction. */
  function Sky(direction: Vec3, sqrt: real -> real): (c: Vec3)
    ensures c.z == 1.0
  {
    var unitDirection := UnitVector(direction, sqrt);
    var a := 0.5 * (unitDirection.y + 1.0);
    Add(Scale(Vec3(1.0, 1.0, 1.0), 1.0 - a), Scale(Vec3(0.5, 0.7, 1.0), a))
  }

  /** A ray straight up sees the sky colour (0.5, 0.7, 1.0). */
  lemma SkyStraightUp(k: real, sqrt: real -> real)
    requires IsSqrt(sqrt) && 0.0 < k
    ensures Sky(Vec3(0.0, k, 0.0), sqrt) == Vec3(0.5, 0.7, 1.0)
  {
    AxisUnit(k, sqrt);
    SkyOfVertical(Vec3(0.0, k, 0.0), 1.0, sqrt);
  }

  /** A ray straight down sees white. */
  lemma SkyStraightDown(k: real, sqrt: real -> real)
    requires IsSqrt(sqrt) && 0.0 < k
    ensures Sky(Vec3(0.0, -k, 0.0), sqrt) == Vec3(1.0, 1.0, 1.0)
  {
    AxisUnit(k, sqrt);
    SkyOfVertical(Vec3(0.0, -k, 0.0), -1.0, sqrt);
  }

  lemma SkyOfVertical(direction: Vec3, y: real, sqrt: real -> real)
    requires UnitVector(direction, sqrt) == Vec3(0.0, y, 0.0)
    ensures var a := 0.5 * (y + 1.0);
            Sky(direction, sqrt) == Vec3(1.0 - a + 0.5 * a, 1.0 - a + 0.7 * a, 1.0)
  {
  }

  /** The unit vectors along the y axis, up and down. */
  lemma AxisUnit(k: real, sqrt: real -> real)
    requires IsSqrt(sqrt) && 0.0 < k
    ensures UnitVector(Vec3(0.0, k, 0.0), sqrt) == Vec3(0.0, 1.0, 0.0)
    ensures UnitVector(Vec3(0.0, -k, 0.0), sqrt) == Vec3(0.0, -1.0, 0.0)
  {
    var up, down := Vec3(0.0, k, 0.0), Vec3(0.0, -k, 0.0);
    assert LengthSquared(up) == k * k;
    assert LengthSquared(down) == k * k by {
      NegTimes(k, -k);
      NegTimes(k, k);
    }
    SqrtUnique(sqrt, k * k, k);
    assert Length(up, sqrt) == k && Length(down, sqrt) == k;
    DivSelf(k);
    assert -k / k == -1.0;
  }

  /** Every sky colour lies in the unit cube. */
  lemma SkyInUnitCube(direction: Vec3, sqrt: real -> real)
    requires IsSqrt(sqrt)
    ensures InUnitCube(Sky(direction, sqrt))
  {
    UnitVectorHeight(direction, sqrt);
    SkyBlend(direction, UnitVector(direction, sqrt).y, sqrt);
  }

  lemma UnitVectorHeight(direction: Vec3, sqrt: real -> real)
    requires IsSqrt(sqrt)
    ensures -1.0 <= UnitVector(direction, sqrt).y <= 1.0
  {
    var u := UnitVector(direction, sqrt);
    assert u == Zero3 || LengthSquared(u) == 1.0 by {
      UnitVectorUnitOrZero(direction, sqrt);
    }
    UnitOrZeroHeight(u);
  }

  lemma UnitOrZeroHeight(u: Vec3)
    requires u == Zero3 || LengthSquared(u) == 1.0
    ensures -1.0 <= u.y <= 1.0
  {
    if u != Zero3 {
      UnitComponents(u);
    }
  }

  lemma SkyBlend(direction: Vec3, y: real, sqrt: real -> real)
    requires UnitVector(direction, sqrt).y == y && -1.0 <= y <= 1.0
    ensures InUnitCube(Sky(direction, sqrt))
  {
  }

  /** Each coordinate of a unit vector lies in [-1, 1]. */
  lemma UnitComponents(n: Vec3)
    requires LengthSquared(n) == 1.0
    ensures -1.0 <= n.x <= 1.0 && -1.0 <= n.y <= 1.0 && -1.0 <= n.z <= 1.0
  {
    Square(n.x);
    Square(n.y);
    Square(n.z);
    SquareAtMostOne(n.x);
    SquareAtMostOne(n.y);
    SquareAtMostOne(n.z);
  }

  /** y^2 <= 1 bounds y by -1 and 1. */
  lemma SquareAtMostOne(y: real)
    requires y * y <= 1.0
    ensures -1.0 <= y <= 1.0
  {
    if 1.0 < y {
      SquaresOrdered(1.0, y);
    } else if y < -1.0 {
      SquaresOrdered(1.0, -y);
      NegTimes(y, y);
      NegTimes(y, -y);
    }
  }

  /** `0.5 * Vec3(n.x + 1, n.y + 1, n.z + 1)`: a normal mapped to a colour. */
  function NormalShade(n: Vec3): Vec3 {
    Scale(Vec3(n.x + 1.0, n.y + 1.0, n.z + 1.0), 0.5)
  }

  /** A unit normal shades to a colour in the unit cube. */
  lemma UnitNormalShade(n: Vec3)
    requires LengthSquared(n) == 1.0
    ensures InUnitCube(NormalShade(n))
  {
    UnitComponents(n);
  }

  /** The normal stored by a sphere hit is a unit vector: the point lies on the sphere, so
      (p - center) / radius has length 1, and flipping it keeps the length. */
  lemma HitNormalIsUnit(s: Sphere, r: Ray, range: Range, sqrt: real -> real)
    requires IsSqrt(sqrt)
    requires Spheres.Hit(s, r, range, sqrt).Some?
    ensures LengthSquared(Spheres.Hit(s, r, range, sqrt).value.normal) == 1.0
  {
    var rec := Spheres.Hit(s, r, range, sqrt).value;
    HitOnSphere(s, r, range, sqrt);
    var k: real := s.radius;
    var v := Sub(rec.p, s.center);
    var outward := Div(v, k);
    assert LengthSquared(v) == k * k;
    LengthSquaredDiv(v, k);
    var kk := k * k;
    assert kk != 0.0 by {
      if kk == 0.0 {
        SquareZero(k);
      }
    }
    Cancel(LengthSquared(outward), kk, LengthSquared(v));
    assert LengthSquared(Neg(outward)) == LengthSquared(outward) by {
      NegTimes(outward.x, outward.x);
      NegTimes(outward.y, outward.y);
      NegTimes(outward.z, outward.z);
      NegTimes(outward.x, -outward.x);
      NegTimes(outward.y, -outward.y);
      NegTimes(outward.z, -outward.z);
    }
  }

  lemma LengthSquaredDiv(v: Vec3, s: real)
    requires s != 0.0
    ensures LengthSquared(Div(v, s)) * (s * s) == LengthSquared(v)
  {
    var q := Div(v, s);
    assert q.x * s == v.x && q.y * s == v.y && q.z * s == v.z;
    assert (q.x * q.x) * (s * s) == (q.x * s) * (q.x * s);
    assert (q.y * q.y) * (s * s) == (q.y * s) * (q.y * s);
    assert (q.z * q.z) * (s * s) == (q.z * s) * (q.z * s);
  }

  lemma Cancel(x: real, k: real, y: real)
    requires k != 0.0 && x * k == y && y == k
    ensures x == 1.0
  {
    assert (x - 1.0) * k == 0.0;
    ZeroProduct(x - 1.0, k);
  }

  // ---------------------------------------------------------------- trace(ray, spheres)

  /** The first sphere, in list order, hit in the default range at a positive t. */
  function FirstHit(spheres: seq<Sphere>, r: Ray, sqrt: real -> real): Option<HitRecord>
    decreases |spheres|
  {
    if spheres == [] then None
    else
      var hitResult := Spheres.Hit(spheres[0], r, DefaultRange, sqrt);
      if hitResult.Some? && hitResult.value.t > 0.0 then hitResult
      else FirstHit(spheres[1..], r, sqrt)
  }

  /** The colour `trace(ray, spheres)` returns: the shaded normal of the first hit, or the
      sky. */
  function NormalsColour(spheres: seq<Sphere>, r: Ray, sqrt: real -> real): Vec3 {
    match FirstHit(spheres, r, sqrt)
    case Some(h) => NormalShade(h.normal)
    case None => Sky(r.direction, sqrt)
  }

  /** `trace(ray, spheres)`: the loop over the spheres that returns at the first hit. */
  method TraceNormals(r: Ray, spheres: seq<Sphere>, sqrt: real -> real) returns (colour: Vec3)
    ensures colour == NormalsColour(spheres, r, sqrt)
  {
    var i := 0;
    while i < |spheres|
      invariant 0 <= i <= |spheres|
      invariant FirstHit(spheres[i..], r, sqrt) == FirstHit(spheres, r, sqrt)
    {
      var hitResult := Spheres.Hit(spheres[i], r, DefaultRange, sqrt);
      if hitResult.Some? && hitResult.value.t > 0.0 {
        return NormalShade(hitResult.value.normal);
      }
      assert spheres[i..][1..] == spheres[i + 1..];
      i := i + 1;
    }
    return Sky(r.direction, sqrt);
  }

  /** The first hit is the hit of the first sphere the ray meets in the default range, and
      there is none exactly when the ray misses every sphere: the `t > 0` test never
      rejects a hit, since the default range starts above zero. */
  lemma {:induction false} FirstHitIsFirst(spheres: seq<Sphere>, r: Ray, sqrt: real -> real)
    ensures FirstHit(spheres, r, sqrt).None? <==>
            forall j :: 0 <= j < |spheres| ==> Spheres.Hit(spheres[j], r, DefaultRange, sqrt).None?
    ensures FirstHit(spheres, r, sqrt).Some? ==>
            exists i :: 0 <= i < |spheres| &&
              Spheres.Hit(spheres[i], r, DefaultRange, sqrt) == FirstHit(spheres, r, sqrt) &&
              forall j :: 0 <= j < i ==> Spheres.Hit(spheres[j], r, DefaultRange, sqrt).None?
    decreases |spheres|
  {
    if spheres != [] {
      var rest := spheres[1..];
      FirstHitIsFirst(rest, r, sqrt);
      var hitResult := Spheres.Hit(spheres[0], r, DefaultRange, sqrt);
      if hitResult.Some? {
        DefaultRangeIsPositive(hitResult.value.t);
        assert FirstHit(spheres, r, sqrt) == hitResult;
      } else {
        assert FirstHit(spheres, r, sqrt) == FirstHit(rest, r, sqrt);
        forall j | 1 <= j < |spheres|
          ensures spheres[j] == rest[j - 1]
        {
        }
        if FirstHit(rest, r, sqrt).Some? {
          var i :| 0 <= i < |rest| &&
            Spheres.Hit(rest[i], r, DefaultRange, sqrt) == FirstHit(rest, r, sqrt) &&
            forall j :: 0 <= j < i ==> Spheres.Hit(rest[j], r, DefaultRange, sqrt).None?;
          assert Spheres.Hit(spheres[i + 1], r, DefaultRange, sqrt) == FirstHit(spheres, r, sqrt);
        }
      }
    }
  }

  /** `trace(ray, spheres)` always returns a colour in the unit cube. */
  lemma NormalsColourInUnitCube(spheres: seq<Sphere>, r: Ray, sqrt: real -> real)
    requires IsSqrt(sqrt)
    ensures InUnitCube(NormalsColour(spheres, r, sqrt))
  {
    FirstHitIsFirst(spheres, r, sqrt);
    if FirstHit(spheres, r, sqrt).Some? {
      var i :| 0 <= i < |spheres| &&
        Spheres.Hit(spheres[i], r, DefaultRange, sqrt) == FirstHit(spheres, r, sqrt);
      HitNormalIsUnit(spheres[i], r, DefaultRange, sqrt);
      UnitNormalShade(FirstHit(spheres, r, sqrt).value.normal);
    } else {
      SkyInUnitCube(r.direction, sqrt);
    }
  }

  // ---------------------------------------------------------------- trace(scene, ray, depth)

  /** The parameter range of the path tracer's scene query: (0.001, float max), which
      keeps a scattered ray from hitting the surface it leaves. */
  const TraceRange: Range := Range(0.001, FloatMax)

  /** The colour `trace(scene, ray, depth)` returns.  `draw(d)` is the random vector the
      material draws at remaining depth d (the source takes it from a random engine). */
  function TraceColour(objects: seq<Sphere>, r: Ray, depth: int, draw: int -> Vec3,
                       sqrt: real -> real): Vec3
    decreases depth
  {
    if depth <= 0 then Zero3
    else
      match Scan(objects, r, TraceRange, sqrt).res
      case Some(h) =>
        if h.t > 0.0 then
          var s := ScatterOf(h.mat, r, h, draw(depth), sqrt);
          if s.ok then Mul(s.attenuation, TraceColour(objects, s.scattered, depth - 1, draw, sqrt))
          else Zero3
        else Sky(r.direction, sqrt)
      case None => Sky(r.direction, sqrt)
  }

  /** `trace(scene, ray, depth)`. */
  method Trace(scene: Scene, r: Ray, depth: int, draw: int -> Vec3, sqrt: real -> real)
    returns (colour: Vec3)
    ensures colour == TraceColour(scene.objects, r, depth, draw, sqrt)
    decreases depth
  {
    if depth <= 0 {
      return Vec3(0.0, 0.0, 0.0);
    }
    var hitResult := scene.Hit(r, TraceRange, sqrt);
    if hitResult.Some? && hitResult.value.t > 0.0 {
      var h := hitResult.value;
      var ok, attenuation, scattered := Scatter(h.mat, r, h, draw(depth), sqrt);
      if ok {
        var incoming := Trace(scene, scattered, depth - 1, draw, sqrt);
        return Mul(attenuation, incoming);
      }
      return Vec3(0.0, 0.0, 0.0);
    }
    return Sky(r.direction, sqrt);
  }

  /** Any hit the scene query reports lies beyond 0.001, so the `t > 0` test never turns
      a hit into sky. */
  lemma TraceHitIsAhead(objects: seq<Sphere>, r: Ray, sqrt: real -> real)
    requires IsSqrt(sqrt)
    requires Scan(objects, r, TraceRange, sqrt).res.Some?
    ensures Scan(objects, r, TraceRange, sqrt).res.value.t > 0.0
  {
    SceneHitInRange(objects, r, TraceRange, sqrt);
  }

  /** A ray that misses every object (and has depth left) returns the sky colour. */
  lemma TraceMissIsSky(objects: seq<Sphere>, r: Ray, depth: int, draw: int -> Vec3,
                       sqrt: real -> real)
    requires IsSqrt(sqrt) && 0 < depth
    requires forall j :: 0 <= j < |objects| ==> Spheres.Hit(objects[j], r, TraceRange, sqrt).None?
    ensures TraceColour(objects, r, depth, draw, sqrt) == Sky(r.direction, sqrt)
  {
    ScanNearest(objects, r, TraceRange, sqrt);
  }

  /** Once the depth budget is spent the path contributes black. */
  lemma TraceExhausted(objects: seq<Sphere>, r: Ray, depth: int, draw: int -> Vec3,
                       sqrt: real -> real)
    requires depth <= 0
    ensures TraceColour(objects, r, depth, draw, sqrt) == Vec3(0.0, 0.0, 0.0)
  {
  }

  /** Albedos in the unit cube: no material reflects more light than it receives. */
  predicate AlbedoBounded(mat: Material) {
    match mat
    case Lambertian(albedo) => InUnitCube(albedo)
    case Metal(albedo, _) => InUnitCube(albedo)
    case Dielectric(_) => true
  }

  /** With albedos in the unit cube every path's colour stays in the unit cube: each bounce
      multiplies by an attenuation no larger than 1, and a path ends in black or sky. */
  lemma {:induction false} TraceInUnitCube(objects: seq<Sphere>, r: Ray, depth: int,
                                           draw: int -> Vec3, sqrt: real -> real)
    requires IsSqrt(sqrt)
    requires forall j :: 0 <= j < |objects| ==> AlbedoBounded(objects[j].mat)
    ensures InUnitCube(TraceColour(objects, r, depth, draw, sqrt))
    decreases depth
  {
    if 0 < depth {
      var shorter := depth - 1;
      forall next: Ray
        ensures InUnitCube(TraceColour(objects, next, shorter, draw, sqrt))
      {
        TraceInUnitCube(objects, next, shorter, draw, sqrt);
      }
      TraceStepInUnitCube(objects, r, shorter, draw, sqrt);
    }
  }

  /** One bounce keeps the colour in the unit cube when every path with depth `shorter` has
      its colour in it. */
  lemma TraceStepInUnitCube(objects: seq<Sphere>, r: Ray, shorter: int, draw: int -> Vec3,
                            sqrt: real -> real)
    requires IsSqrt(sqrt) && 0 <= shorter
    requires forall j :: 0 <= j < |objects| ==> AlbedoBounded(objects[j].mat)
    requires forall next: Ray :: InUnitCube(TraceColour(objects, next, shorter, draw, sqrt))
    ensures InUnitCube(TraceColour(objects, r, shorter + 1, draw, sqrt))
  {
    var depth := shorter + 1;
    var st := Scan(objects, r, TraceRange, sqrt);
    if st.res.Some? && st.res.value.t > 0.0 {
      var h := st.res.value;
      HitMaterialBounded(objects, r, sqrt);
      var s := ScatterOf(h.mat, r, h, draw(depth), sqrt);
      if s.ok {
        AttenuationBounded(h.mat, r, h, draw(depth), sqrt);
        MulInUnitCube(s.attenuation, TraceColour(objects, s.scattered, shorter, draw, sqrt));
      }
    } else {
      SkyInUnitCube(r.direction, sqrt);
    }
  }

  /** The material of the hit the scene query reports is one of the objects' materials. */
  lemma HitMaterialBounded(objects: seq<Sphere>, r: Ray, sqrt: real -> real)
    requires IsSqrt(sqrt)
    requires forall j :: 0 <= j < |objects| ==> AlbedoBounded(objects[j].mat)
    requires Scan(objects, r, TraceRange, sqrt).res.Some?
    ensures AlbedoBounded(Scan(objects, r, TraceRange, sqrt).res.value.mat)
  {
    var h := Scan(objects, r, TraceRange, sqrt).res.value;
    ScanNearest(objects, r, TraceRange, sqrt);
    var w :| 0 <= w < |objects| && Winner(objects, r, TraceRange, sqrt, w, h);
    assert h.mat == objects[w].mat;
  }

  /** A material with a bounded albedo scatters with an attenuation in the unit cube. */
  lemma AttenuationBounded(mat: Material, r: Ray, h: HitRecord, u: Vec3, sqrt: real -> real)
    requires AlbedoBounded(mat)
    ensures var s := ScatterOf(mat, r, h, u, sqrt);
            s.ok ==> InUnitCube(s.attenuation)
  {
  }

  lemma MulInUnitCube(a: Vec3, b: Vec3)
    requires InUnitCube(a) && InUnitCube(b)
    ensures InUnitCube(Mul(a, b))
  {
    UnitProduct(a.x, b.x);
    UnitProduct(a.y, b.y);
    UnitProduct(a.z, b.z);
  }

  lemma UnitProduct(p: real, q: real)
    requires 0.0 <= p <= 1.0 && 0.0 <= q <= 1.0
    ensures 0.0 <= p * q <= 1.0
  {
    NonNegProduct(p, q);
    NonNegProduct(1.0 - p, q);
    assert (1.0 - p) * q == q - p * q;
  }

  lemma NonNegProduct(x: real, y: real)
    requires 0.0 <= x && 0.0 <= y
    ensures 0.0 <= x * y
  {
  }
}
