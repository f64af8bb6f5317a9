/** Ray-sphere intersection (src/sphere.h): the "half-b" quadratic and the choice of the
    nearest root inside the open parameter range. */
module Spheres {
  import opened Numeric
  import opened Vectors
  import opened Options
  import opened Rays
  import opened Hittables

  /** Sphere(center, radius, material); the radius is divided by when the normal is built. */
  datatype Sphere = Sphere(center: Vec3, radius: NonZero, mat: Material)

  /** a of a*t^2 + 2*half_b*t + c = 0: the squared length of the direction. */
  function QuadA(r: Ray): real {
    LengthSquared(r.direction)
  }

  function HalfB(s: Sphere, r: Ray): real {
    Dot(Sub(r.origin, s.center), r.direction)
  }

  function QuadC(s: Sphere, r: Ray): real {
    LengthSquared(Sub(r.origin, s.center)) - s.radius * s.radius
  }

  function Discriminant(s: Sphere, r: Ray): real {
    HalfB(s, r) * HalfB(s, r) - QuadA(r) * QuadC(s, r)
  }

  /** (-half_b - sqrtd) / a, the root tried first. */
  function NearRoot(s: Sphere, r: Ray, sqrt: real -> real): real
    requires QuadA(r) != 0.0
  {
    (-HalfB(s, r) - sqrt(Discriminant(s, r))) / QuadA(r)
  }

  /** (-half_b + sqrtd) / a, tried when the near root is out of range. */
  function FarRoot(s: Sphere, r: Ray, sqrt: real -> real): real
    requires QuadA(r) != 0.0
  {
    (-HalfB(s, r) + sqrt(Discriminant(s, r))) / QuadA(r)
  }

  /** The record built for parameter t: p = r.at(t), the sphere's material, and the outward
      normal (p - center) / radius passed through set_face_normal. */
  function Record(s: Sphere, r: Ray, t: real): (rec: HitRecord)
    ensures rec.t == t && rec.p == At(r, t) && rec.mat == s.mat
    ensures var outward := Div(Sub(At(r, t), s.center), s.radius);
            (rec.frontFace <==> Dot(r.direction, outward) < 0.0) &&
            rec.normal == (if rec.frontFace then outward else Neg(outward))
  {
    var p := At(r, t);
    var blank := HitRecord(p, Zero3, t, false, s.mat);
    SetFaceNormal(blank, r, Div(Sub(p, s.center), s.radius))
  }

  /** Sphere::hit.  A zero direction (a == 0) makes the source divide by zero; the model
      reports no hit for it. */
  function Hit(s: Sphere, r: Ray, range: Range, sqrt: real -> real): (res: Option<HitRecord>)
    ensures res.Some? ==> InRange(range, res.value.t)
    ensures res.Some? ==> res.value == Record(s, r, res.value.t)
    ensures res.Some? ==> QuadA(r) != 0.0 && 0.0 <= Discriminant(s, r)
                          && (res.value.t == NearRoot(s, r, sqrt) || res.value.t == FarRoot(s, r, sqrt))
  {
    var a := QuadA(r);
    var discriminant := Discriminant(s, r);
    if discriminant < 0.0 || a == 0.0 then
      None
    else
      var root := NearRoot(s, r, sqrt);
      if !InRange(range, root) then
        var root' := FarRoot(s, r, sqrt);
        if !InRange(range, root') then None else Some(Record(s, r, root'))
      else
        Some(Record(s, r, root))
  }

  // ---------------------------------------------------------------- properties

  /** A negative discriminant means no hit, whatever the range. */
  lemma NegativeDiscriminantMisses(s: Sphere, r: Ray, range: Range, sqrt: real -> real)
    requires Discriminant(s, r) < 0.0
    ensures Hit(s, r, range, sqrt) == None
  {
  }

  /** The near root is returned whenever it lies in the range; only otherwise is the far
      root tried, and no hit is reported when neither lies in the range. */
  lemma NearRootPreferred(s: Sphere, r: Ray, range: Range, sqrt: real -> real)
    requires QuadA(r) != 0.0 && 0.0 <= Discriminant(s, r)
    ensures InRange(range, NearRoot(s, r, sqrt)) ==>
              Hit(s, r, range, sqrt) == Some(Record(s, r, NearRoot(s, r, sqrt)))
    ensures !InRange(range, NearRoot(s, r, sqrt)) && InRange(range, FarRoot(s, r, sqrt)) ==>
              Hit(s, r, range, sqrt) == Some(Record(s, r, FarRoot(s, r, sqrt)))
    ensures !InRange(range, NearRoot(s, r, sqrt)) && !InRange(range, FarRoot(s, r, sqrt)) ==>
              Hit(s, r, range, sqrt) == None
  {
  }

  /** With a true square root the near root is the smaller one. */
  lemma RootsOrdered(s: Sphere, r: Ray, sqrt: real -> real)
    requires IsSqrt(sqrt)
    requires QuadA(r) != 0.0 && 0.0 <= Discriminant(s, r)
    ensures NearRoot(s, r, sqrt) <= FarRoot(s, r, sqrt)
  {
    var a := QuadA(r);
    var hb := HalfB(s, r);
    var sd := sqrt(Discriminant(s, r));
    assert 0.0 <= sd;
    DivMonotone(-hb - sd, -hb + sd, a);
  }

  lemma DivMonotone(x: real, y: real, a: real)
    requires 0.0 < a && x <= y
    ensures x / a <= y / a
  {
    var q := y / a - x / a;
    assert q * a == y - x;
  }

  /** r.at(t) - center, seen from the center: oc + t * direction. */
  lemma AtFromCenter(s: Sphere, r: Ray, t: real)
    ensures Sub(At(r, t), s.center) == Add(Sub(r.origin, s.center), Scale(r.direction, t))
  {
  }

  /** a * (x / a) == x. */
  lemma TimesQuotient(x: real, a: real)
    requires a != 0.0
    ensures a * (x / a) == x
  {
  }

  /** The square of a*t + half_b, which is plus or minus the root of the discriminant. */
  lemma SquareOfShifted(a: real, t: real, hb: real)
    ensures (a * t + hb) * (a * t + hb) == a * (a * t * t + 2.0 * hb * t) + hb * hb
  {
  }

  /** Either root, written t = (-half_b +- sqrtd) / a, solves a*t^2 + 2*half_b*t + c = 0. */
  lemma RootSolves(a: real, hb: real, c: real, sd: real, t: real)
    requires a != 0.0
    requires sd * sd == hb * hb - a * c
    requires a * t == -hb - sd || a * t == -hb + sd
    ensures a * t * t + 2.0 * hb * t + c == 0.0
  {
    var u := a * t + hb;
    assert u * u == sd * sd by {
      if a * t == -hb - sd {
        assert u == -sd;
      } else {
        assert u == sd;
      }
    }
    SquareOfShifted(a, t, hb);
    assert a * (a * t * t + 2.0 * hb * t + c) == 0.0;
    ZeroProduct(a, a * t * t + 2.0 * hb * t + c);
  }

  /** Both roots solve a*t^2 + 2*half_b*t + c = 0 when the discriminant is not negative. */
  lemma RootOfQuadratic(s: Sphere, r: Ray, t: real, sqrt: real -> real)
    requires IsSqrt(sqrt)
    requires QuadA(r) != 0.0 && 0.0 <= Discriminant(s, r)
    requires t == NearRoot(s, r, sqrt) || t == FarRoot(s, r, sqrt)
    ensures QuadA(r) * t * t + 2.0 * HalfB(s, r) * t + QuadC(s, r) == 0.0
  {
    var a, hb, c := QuadA(r), HalfB(s, r), QuadC(s, r);
    var sd := sqrt(Discriminant(s, r));
    SqrtSquared(sqrt, Discriminant(s, r));
    RootTimesA(a, hb, sd, t);
    RootSolves(a, hb, c, sd, t);
  }

  /** Multiplying either root by a undoes the division. */
  lemma RootTimesA(a: real, hb: real, sd: real, t: real)
    requires a != 0.0
    requires t == (-hb - sd) / a || t == (-hb + sd) / a
    ensures a * t == -hb - sd || a * t == -hb + sd
  {
    if t == (-hb - sd) / a {
      TimesQuotient(-hb - sd, a);
    } else {
      TimesQuotient(-hb + sd, a);
    }
  }

  /** The parameter of any hit solves a*t^2 + 2*half_b*t + c = 0. */
  lemma HitSolvesQuadratic(s: Sphere, r: Ray, range: Range, sqrt: real -> real)
    requires IsSqrt(sqrt)
    requires Hit(s, r, range, sqrt).Some?
    ensures var t := Hit(s, r, range, sqrt).value.t;
            QuadA(r) * t * t + 2.0 * HalfB(s, r) * t + QuadC(s, r) == 0.0
  {
    RootOfQuadratic(s, r, Hit(s, r, range, sqrt).value.t, sqrt);
  }

  /** |r.at(t) - center|^2 is the quadratic's value at t plus radius^2. */
  lemma DistanceAsQuadratic(s: Sphere, r: Ray, t: real)
    ensures LengthSquared(Sub(At(r, t), s.center))
         == QuadA(r) * t * t + 2.0 * HalfB(s, r) * t + QuadC(s, r) + s.radius * s.radius
  {
    DistanceExpanded(s, r, t);
  }

  /** |r.at(t) - center|^2 as a polynomial in t. */
  lemma DistanceExpanded(s: Sphere, r: Ray, t: real)
    ensures LengthSquared(Sub(At(r, t), s.center))
         == QuadA(r) * t * t + 2.0 * HalfB(s, r) * t + LengthSquared(Sub(r.origin, s.center))
  {
    AtFromCenterLength(s, r, t);
    ExpandSphere(s, r, t);
  }

  /** Equal vectors have equal squared lengths. */
  lemma AtFromCenterLength(s: Sphere, r: Ray, t: real)
    ensures LengthSquared(Sub(At(r, t), s.center))
         == LengthSquared(Add(Sub(r.origin, s.center), Scale(r.direction, t)))
  {
    AtFromCenter(s, r, t);
  }

  /** |oc + t*d|^2 expanded into the terms of the quadratic. */
  lemma ExpandSphere(s: Sphere, r: Ray, t: real)
    ensures LengthSquared(Add(Sub(r.origin, s.center), Scale(r.direction, t)))
         == QuadA(r) * t * t + 2.0 * HalfB(s, r) * t + LengthSquared(Sub(r.origin, s.center))
  {
  }

  /** A parameter solving the quadratic gives a point at distance radius from the center. */
  lemma SolutionOnSphere(s: Sphere, r: Ray, t: real)
    requires QuadA(r) * t * t + 2.0 * HalfB(s, r) * t + QuadC(s, r) == 0.0
    ensures LengthSquared(Sub(At(r, t), s.center)) == s.radius * s.radius
  {
    DistanceAsQuadratic(s, r, t);
  }

  /** Over the reals, the point of any hit lies on the sphere. */
  lemma HitOnSphere(s: Sphere, r: Ray, range: Range, sqrt: real -> real)
    requires IsSqrt(sqrt)
    requires Hit(s, r, range, sqrt).Some?
    ensures LengthSquared(Sub(Hit(s, r, range, sqrt).value.p, s.center)) == s.radius * s.radius
  {
    HitSolvesQuadratic(s, r, range, sqrt);
    SolutionOnSphere(s, r, Hit(s, r, range, sqrt).value.t);
  }

  /** Shrinking the end of the range keeps a hit that still lies before the new end and
      loses it otherwise: the nearest-root choice is monotone in range.end. */
  lemma HitShrinkEnd(s: Sphere, r: Ray, start: real, end: real, end': real, sqrt: real -> real)
    requires IsSqrt(sqrt)
    requires end' <= end
    ensures Hit(s, r, Range(start, end'), sqrt)
         == match Hit(s, r, Range(start, end), sqrt)
            case None => None
            case Some(h) => if h.t < end' then Some(h) else None
  {
    if QuadA(r) != 0.0 && 0.0 <= Discriminant(s, r) {
      RootsOrdered(s, r, sqrt);
      NearRootPreferred(s, r, Range(start, end), sqrt);
      NearRootPreferred(s, r, Range(start, end'), sqrt);
    }
  }

  /** A ray from the origin straight down -z meets the sphere of radius 0.5 centred at
      (0, 0, -1) at t = 0.5, in the point (0, 0, -0.5), from outside, with normal +z. */
  lemma UnitExample(sqrt: real -> real, mat: Material)
    requires IsSqrt(sqrt)
    ensures Hit(Sphere(Vec3(0.0, 0.0, -1.0), 0.5, mat), Ray(Zero3, Vec3(0.0, 0.0, -1.0)),
                DefaultRange, sqrt)
         == Some(HitRecord(Vec3(0.0, 0.0, -0.5), Vec3(0.0, 0.0, 1.0), 0.5, true, mat))
  {
    var s := Sphere(Vec3(0.0, 0.0, -1.0), 0.5, mat);
    var r := Ray(Zero3, Vec3(0.0, 0.0, -1.0));
    UnitExampleRoot(s, r, sqrt);
    assert InRange(DefaultRange, 0.5);
    NearRootPreferred(s, r, DefaultRange, sqrt);
    UnitExampleRecord(mat);
  }

  lemma UnitExampleRoot(s: Sphere, r: Ray, sqrt: real -> real)
    requires IsSqrt(sqrt)
    requires s.center == Vec3(0.0, 0.0, -1.0) && s.radius == 0.5
    requires r == Ray(Zero3, Vec3(0.0, 0.0, -1.0))
    ensures QuadA(r) != 0.0 && 0.0 <= Discriminant(s, r) && NearRoot(s, r, sqrt) == 0.5
  {
    assert QuadA(r) == 1.0 && HalfB(s, r) == -1.0 && QuadC(s, r) == 0.75;
    assert Discriminant(s, r) == 0.25;
    SqrtUnique(sqrt, 0.25, 0.5);
  }

  lemma UnitExampleRecord(mat: Material)
    ensures Record(Sphere(Vec3(0.0, 0.0, -1.0), 0.5, mat), Ray(Zero3, Vec3(0.0, 0.0, -1.0)), 0.5)
         == HitRecord(Vec3(0.0, 0.0, -0.5), Vec3(0.0, 0.0, 1.0), 0.5, true, mat)
  {
    var r := Ray(Zero3, Vec3(0.0, 0.0, -1.0));
    assert At(r, 0.5) == Vec3(0.0, 0.0, -0.5);
    assert Div(Vec3(0.0, 0.0, 0.5), 0.5) == Vec3(0.0, 0.0, 1.0);
  }
}
