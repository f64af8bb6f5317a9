/** The camera of src/camera.h: an eye position and an orthonormal basis built by lookAt,
    the world-to-camera and camera-to-world matrices composed from it, the inverse
    projection filled by the constructor, and the rays generated through them.  `tan` and
    `sqrt` are passed in as function values. */
module Cameras {
  import opened Numeric
  import opened Vectors
  import opened Vec4s
  import opened Matrix44
  import opened Rays

  /** The float literal 3.1415926535897932385f of the source, read as a real. */
  const Pi: real := 3.1415926535897932385

  /** The field of view in radians. */
  function Theta(fov: real): real {
    fov * Pi / 180.0
  }

  /** r = near * aspectRatio * tan(theta / 2), the half-width of the near plane. */
  function HalfWidth(fov: real, aspectRatio: real, near: real, tan: real -> real): real {
    near * aspectRatio * tan(0.5 * Theta(fov))
  }

  /** t = near * tan(theta / 2), the half-height of the near plane. */
  function HalfHeight(fov: real, near: real, tan: real -> real): real {
    near * tan(0.5 * Theta(fov))
  }

  /** The InverseProjection the constructor leaves: a zero matrix with five entries set. */
  function InverseProjectionOf(fov: real, aspectRatio: real, near: real, far: real,
                               tan: real -> real): (m: Mat4)
    ensures m[0] == far * HalfWidth(fov, aspectRatio, near, tan)
    ensures m[5] == far * HalfHeight(fov, near, tan)
    ensures m[11] == -(far * near)
    ensures m[14] == (near - far) / 2.0 && m[15] == (near + far) / 2.0
    ensures forall k :: 0 <= k < 16 && k != 0 && k != 5 && k != 11 && k != 14 && k != 15 ==>
              m[k] == 0.0
  {
    Zero[0 := far * HalfWidth(fov, aspectRatio, near, tan)]
        [5 := far * HalfHeight(fov, near, tan)]
        [11 := -(far * near)]
        [14 := (near - far) / 2.0]
        [15 := (near + far) / 2.0]
  }

  /** The four vectors lookAt stores: forward, zaxis, right and up. */
  datatype Basis = Basis(forward: Vec3, zaxis: Vec3, right: Vec3, up: Vec3)

  /** `lookAt(eye, at, upHint)`: zaxis points from the target back to the eye, right is
      normalize(cross(upHint, zaxis)) and up is cross(zaxis, right). */
  function LookAtBasis(eye: Vec3, at: Vec3, upHint: Vec3, sqrt: real -> real): Basis {
    var forward := UnitVector(Sub(at, eye), sqrt);
    var zaxis := UnitVector(Sub(eye, at), sqrt);
    var xaxis := UnitVector(Cross(upHint, zaxis), sqrt);
    var yaxis := Cross(zaxis, xaxis);
    Basis(forward, zaxis, xaxis, yaxis)
  }

  /** worldToCamera = FromAxes(right, up, zaxis) * Translation(-position). */
  function WorldToCameraOf(position: Vec3, right: Vec3, up: Vec3, zaxis: Vec3): Mat4 {
    ProductOf(FromAxes(right, up, zaxis), TranslationOf(-position.x, -position.y, -position.z))
  }

  /** cameraToWorld = Translation(position) * FromAxes(right, up, zaxis)^T. */
  function CameraToWorldOf(position: Vec3, right: Vec3, up: Vec3, zaxis: Vec3): Mat4 {
    ProductOf(TranslationOf(position.x, position.y, position.z), TransposeOf(FromAxes(right, up, zaxis)))
  }

  /** `ToWorld(direction)`: the direction (w = 0) through cameraToWorld, normalised. */
  function ToWorldOf(cameraToWorld: Mat4, direction: Vec3, sqrt: real -> real): Vec3 {
    UnitVector(Xyz(Apply(cameraToWorld, FromVec3(direction, 0.0))), sqrt)
  }

  /** `WorldToCamera(point)`: the point (w = 1) through worldToCamera. */
  function WorldToCameraPointOf(worldToCamera: Mat4, point: Vec3): Vec3 {
    Xyz(Apply(worldToCamera, FromVec3(point, 1.0)))
  }

  /** The homogeneous point InverseProjection * (ndcX, ndcY, 0, 1) before the divide. */
  function Unprojected(inverseProjection: Mat4, ndcX: real, ndcY: real): Vec4 {
    Apply(inverseProjection, Vec4(ndcX, ndcY, 0.0, 1.0))
  }

  /** `generateRay(ndcX, ndcY)`: from the camera-space origin along the normalised xyz of the
      unprojected point divided by its w. */
  function CameraRayOf(inverseProjection: Mat4, ndcX: real, ndcY: real, sqrt: real -> real): (r: Ray)
    requires Unprojected(inverseProjection, ndcX, ndcY).w != 0.0
    ensures r.origin == Zero3
  {
    var rayDirection := Unprojected(inverseProjection, ndcX, ndcY);
    var divided := Div4(rayDirection, rayDirection.w);
    Ray(Zero3, UnitVector(Xyz(divided), sqrt))
  }

  /** `generateWorldRay(point)`: from the eye, along the camera ray's direction taken to
      world space. */
  function WorldRayOf(inverseProjection: Mat4, cameraToWorld: Mat4, position: Vec3,
                      point: Vec2f, sqrt: real -> real): (r: Ray)
    requires Unprojected(inverseProjection, point.x, point.y).w != 0.0
    ensures r.origin == position
  {
    var cameraRay := CameraRayOf(inverseProjection, point.x, point.y, sqrt);
    Ray(position, ToWorldOf(cameraToWorld, cameraRay.direction, sqrt))
  }

  class Camera {
    var position: Vec3
    var target: Vec3
    var up: Vec3
    var right: Vec3
    var forward: Vec3
    var zaxis: Vec3
    var fov: real
    var aspectRatio: real
    var cameraToWorld: Mat4
    var worldToCamera: Mat4
    var inverseProjection: Mat4

    /** The two matrices are the ones updateMatrices composes from the stored basis. */
    predicate MatricesMatchBasis()
      reads this
    {
      worldToCamera == WorldToCameraOf(position, right, up, zaxis) &&
      cameraToWorld == CameraToWorldOf(position, right, up, zaxis)
    }

    /** `Camera(position, target, up, fov, aspectRatio, nearPlane = 0.1, farPlane = 100)`. */
    constructor (position: Vec3, target: Vec3, up: Vec3, fov: real, aspectRatio: real,
                 sqrt: real -> real, tan: real -> real,
                 nearPlane: real := 0.1, farPlane: real := 100.0)
      ensures this.position == position && this.target == target
      ensures this.fov == fov && this.aspectRatio == aspectRatio
      ensures inverseProjection == InverseProjectionOf(fov, aspectRatio, nearPlane, farPlane, tan)
      ensures Basis(forward, zaxis, right, this.up) == LookAtBasis(position, target, up, sqrt)
      ensures MatricesMatchBasis()
    {
      this.position := position;
      this.target := target;
      this.up := up;
      this.fov := fov;
      this.aspectRatio := aspectRatio;
      right := Zero3;
      forward := Zero3;
      zaxis := Zero3;
      cameraToWorld := Zero;
      worldToCamera := Zero;
      var m := NewMatrix();
      assert m == Zero by {
        assert forall k :: 0 <= k < 16 ==> m[k] == Zero[k];
      }
      // r and t are the half-width and half-height of the near plane.
      m := m[0 := farPlane * HalfWidth(fov, aspectRatio, nearPlane, tan)];
      m := m[5 := farPlane * HalfHeight(fov, nearPlane, tan)];
      m := m[11 := -(farPlane * nearPlane)];
      m := m[14 := (nearPlane - farPlane) / 2.0];
      m := m[15 := (nearPlane + farPlane) / 2.0];
      assert m == InverseProjectionOf(fov, aspectRatio, nearPlane, farPlane, tan);
      inverseProjection := m;
      new;
      LookAt(position, target, up, sqrt);
    }

    /** `updateMatrices()`: recomputes both matrices; nothing else changes. */
    method UpdateMatrices()
      modifies this
      ensures MatricesMatchBasis()
      ensures position == old(position) && target == old(target) && up == old(up)
      ensures right == old(right) && forward == old(forward) && zaxis == old(zaxis)
      ensures fov == old(fov) && aspectRatio == old(aspectRatio)
      ensures inverseProjection == old(inverseProjection)
    {
      var translationMatrix := Translation(-position.x, -position.y, -position.z);
      var rotationMatrix := FromAxes(right, up, zaxis);
      var w := Matrix44.Mul(rotationMatrix, translationMatrix);
      assert w == WorldToCameraOf(position, right, up, zaxis);
      translationMatrix := Translation(position.x, position.y, position.z);
      var rotationTransposed := Transpose(rotationMatrix);
      var c := Matrix44.Mul(translationMatrix, rotationTransposed);
      assert c == CameraToWorldOf(position, right, up, zaxis);
      worldToCamera := w;
      cameraToWorld := c;
    }

    /** `lookAt(eye, at, upVec)`: moves the eye, rebuilds the basis, then the matrices. */
    method LookAt(eye: Vec3, at: Vec3, upVec: Vec3, sqrt: real -> real)
      modifies this
      ensures position == eye
      ensures Basis(forward, zaxis, right, up) == LookAtBasis(eye, at, upVec, sqrt)
      ensures MatricesMatchBasis()
      ensures target == old(target) && fov == old(fov) && aspectRatio == old(aspectRatio)
      ensures inverseProjection == old(inverseProjection)
    {
      position := eye;
      forward := UnitVector(Sub(at, eye), sqrt);
      zaxis := UnitVector(Sub(eye, at), sqrt);
      var xaxis := UnitVector(Cross(upVec, zaxis), sqrt);
      var yaxis := Cross(zaxis, xaxis);
      right := xaxis;
      up := yaxis;
      UpdateMatrices();
    }

    /** `ToWorld(direction)`. */
    function ToWorld(direction: Vec3, sqrt: real -> real): Vec3
      reads this
    {
      ToWorldOf(cameraToWorld, direction, sqrt)
    }

    /** `WorldToCamera(point)`. */
    function WorldToCamera(point: Vec3): Vec3
      reads this
    {
      WorldToCameraPointOf(worldToCamera, point)
    }

    /** `generateRay(point)`, the Vec2f overload forwarding to generateRay(x, y). */
    function GenerateRay(point: Vec2f, sqrt: real -> real): Ray
      reads this
      requires Unprojected(inverseProjection, point.x, point.y).w != 0.0
    {
      CameraRayOf(inverseProjection, point.x, point.y, sqrt)
    }

    /** `generateWorldRay(point)`. */
    function GenerateWorldRay(point: Vec2f, sqrt: real -> real): Ray
      reads this
      requires Unprojected(inverseProjection, point.x, point.y).w != 0.0
    {
      WorldRayOf(inverseProjection, cameraToWorld, position, point, sqrt)
    }
  }

  // ---------------------------------------------------------------- properties

  /** A vector orthogonal to w stays orthogonal once normalised. */
  lemma UnitVectorKeepsOrthogonal(v: Vec3, w: Vec3, sqrt: real -> real)
    requires Dot(v, w) == 0.0
    ensures Dot(UnitVector(v, sqrt), w) == 0.0 && Dot(w, UnitVector(v, sqrt)) == 0.0
  {
    var l := Length(v, sqrt);
    if l > 0.0 {
      assert UnitVector(v, sqrt) == Scale(v, 1.0 / l);
      DotScale(v, 1.0 / l, w);
    }
    DotSymmetric(w, UnitVector(v, sqrt));
  }

  /** lookAt's right, up and zaxis are pairwise orthogonal, whatever the inputs. */
  lemma LookAtOrthogonal(eye: Vec3, at: Vec3, upHint: Vec3, sqrt: real -> real)
    ensures var b := LookAtBasis(eye, at, upHint, sqrt);
            Dot(b.right, b.zaxis) == 0.0 && Dot(b.up, b.zaxis) == 0.0 && Dot(b.up, b.right) == 0.0
  {
    var b := LookAtBasis(eye, at, upHint, sqrt);
    CrossOrthogonal(upHint, b.zaxis);
    UnitVectorKeepsOrthogonal(Cross(upHint, b.zaxis), b.zaxis, sqrt);
    CrossOrthogonal(b.zaxis, b.right);
    DotSymmetric(b.up, b.zaxis);
    DotSymmetric(Cross(b.zaxis, b.right), b.zaxis);
  }

  /** An up hint along the line of sight is not rejected: right and up come out zero. */
  lemma LookAtParallelHint(eye: Vec3, at: Vec3, k: real, sqrt: real -> real)
    ensures var b := LookAtBasis(eye, at, Scale(Sub(eye, at), k), sqrt);
            b.right == Zero3 && b.up == Zero3
  {
    var d := Sub(eye, at);
    var z := UnitVector(d, sqrt);
    UnitVectorScales(d, sqrt);
    CrossOfMultiples(d, k, UnitFactor(d, sqrt));
    UnitVectorScales(Zero3, sqrt);
    assert Scale(Zero3, UnitFactor(Zero3, sqrt)) == Zero3;
    CrossWithZero(z);
  }

  /** The factor unit_vector scales by: the inverse length, or 0 for a zero length. */
  function UnitFactor(v: Vec3, sqrt: real -> real): real {
    var l := Length(v, sqrt);
    if l > 0.0 then 1.0 / l else 0.0
  }

  /** unit_vector(v) is a multiple of v. */
  lemma UnitVectorScales(v: Vec3, sqrt: real -> real)
    ensures UnitVector(v, sqrt) == Scale(v, UnitFactor(v, sqrt))
  {
  }

  lemma CrossWithZero(v: Vec3)
    ensures Cross(v, Zero3) == Zero3 && Cross(Zero3, v) == Zero3
  {
  }

  /** Two multiples of the same vector have a zero cross product. */
  lemma CrossOfMultiples(v: Vec3, a: real, b: real)
    ensures Cross(Scale(v, a), Scale(v, b)) == Zero3
  {
  }

  /** With a true square root and an up hint off the line of sight, the basis is
      orthonormal. */
  lemma LookAtOrthonormal(eye: Vec3, at: Vec3, upHint: Vec3, sqrt: real -> real)
    requires IsSqrt(sqrt)
    requires Cross(upHint, Sub(eye, at)) != Zero3
    ensures var b := LookAtBasis(eye, at, upHint, sqrt);
            Orthonormal(b.right, b.up, b.zaxis)
  {
    var b := LookAtBasis(eye, at, upHint, sqrt);
    var d := Sub(eye, at);
    assert d != Zero3 by {
      CrossWithZero(upHint);
    }
    assert LengthSquared(b.zaxis) == 1.0 && Cross(upHint, b.zaxis) != Zero3 by {
      UnitVectorIsUnit(d, sqrt);
      var l := Length(d, sqrt);
      CrossScaled(upHint, d, 1.0 / l);
      NonZeroScaled(Cross(upHint, d), 1.0 / l);
    }
    assert LengthSquared(b.right) == 1.0 by {
      UnitVectorIsUnit(Cross(upHint, b.zaxis), sqrt);
    }
    assert Dot(b.zaxis, b.right) == 0.0 by {
      LookAtOrthogonal(eye, at, upHint, sqrt);
      DotSymmetric(b.zaxis, b.right);
    }
    CompleteBasis(b.zaxis, b.right);
  }

  /** Two orthogonal unit vectors z and r, with cross(z, r), make an orthonormal basis. */
  lemma CompleteBasis(z: Vec3, r: Vec3)
    requires LengthSquared(z) == 1.0 && LengthSquared(r) == 1.0 && Dot(z, r) == 0.0
    ensures Orthonormal(r, Cross(z, r), z)
  {
    var u := Cross(z, r);
    assert Dot(u, u) == 1.0 by {
      CrossLengthSquared(z, r);
      DotSymmetric(u, u);
      UnitTimesUnit(LengthSquared(z), LengthSquared(r), Dot(z, r));
    }
    assert Dot(r, u) == 0.0 && Dot(r, z) == 0.0 && Dot(u, z) == 0.0 by {
      CrossOrthogonal(z, r);
      DotSymmetric(z, r);
      DotSymmetric(r, u);
    }
    DotSymmetric(r, r);
    DotSymmetric(z, z);
  }

  lemma UnitTimesUnit(a: real, b: real, c: real)
    requires a == 1.0 && b == 1.0 && c == 0.0
    ensures a * b - c * c == 1.0
  {
  }

  lemma CrossScaled(u: Vec3, v: Vec3, s: real)
    ensures Cross(u, Scale(v, s)) == Scale(Cross(u, v), s)
  {
    var c := Cross(u, v);
    var w := Scale(v, s);
    assert w.x == v.x * s && w.y == v.y * s && w.z == v.z * s;
    ScaledDifference(u.y, v.z, u.z, v.y, s);
    assert Cross(u, w).x == c.x * s;
    ScaledDifference(u.z, v.x, u.x, v.z, s);
    assert Cross(u, w).y == c.y * s;
    ScaledDifference(u.x, v.y, u.y, v.x, s);
    assert Cross(u, w).z == c.z * s;
  }

  lemma ScaledDifference(a: real, b: real, c: real, d: real, s: real)
    ensures a * (b * s) - c * (d * s) == (a * b - c * d) * s
  {
  }

  /** A non-zero vector scaled by a non-zero factor is non-zero. */
  lemma NonZeroScaled(v: Vec3, s: real)
    requires v != Zero3 && s != 0.0
    ensures Scale(v, s) != Zero3
  {
    if Scale(v, s) == Zero3 {
      ZeroProduct(v.x, s);
      ZeroProduct(v.y, s);
      ZeroProduct(v.z, s);
    }
  }

  /** WorldToCamera(position) is the origin: the eye sits at the camera's origin. */
  lemma EyeAtOrigin(position: Vec3, right: Vec3, up: Vec3, zaxis: Vec3)
    ensures WorldToCameraPointOf(WorldToCameraOf(position, right, up, zaxis), position) == Zero3
  {
    ProductApply(FromAxes(right, up, zaxis), TranslationOf(-position.x, -position.y, -position.z),
                 FromVec3(position, 1.0));
    EyeTranslated(position);
    AxesKeepOrigin(right, up, zaxis);
  }

  /** Translating by -position takes position to the homogeneous origin. */
  lemma EyeTranslated(position: Vec3)
    ensures Apply(TranslationOf(-position.x, -position.y, -position.z), FromVec3(position, 1.0))
         == Vec4(0.0, 0.0, 0.0, 1.0)
  {
    TranslationMovesPoint(-position.x, -position.y, -position.z, position);
    assert Add(position, Vec3(-position.x, -position.y, -position.z)) == Zero3;
  }

  /** A rotation built from axes keeps the homogeneous origin. */
  lemma AxesKeepOrigin(a: Vec3, b: Vec3, c: Vec3)
    ensures Apply(FromAxes(a, b, c), Vec4(0.0, 0.0, 0.0, 1.0)) == Vec4(0.0, 0.0, 0.0, 1.0)
  {
    FromAxesApply(a, b, c, Zero3, 1.0);
    DotWithZero(a);
    DotWithZero(b);
    DotWithZero(c);
  }

  lemma DotWithZero(v: Vec3)
    ensures Dot(v, Zero3) == 0.0
  {
  }

  /** worldToCamera * cameraToWorld acts as the identity when the basis is orthonormal:
      the product computed (and left unused) at the end of updateMatrices. */
  lemma CameraRoundTrip(position: Vec3, right: Vec3, up: Vec3, zaxis: Vec3, v: Vec4)
    requires Orthonormal(right, up, zaxis)
    ensures Apply(ProductOf(WorldToCameraOf(position, right, up, zaxis),
                            CameraToWorldOf(position, right, up, zaxis)), v) == v
  {
    var f := FromAxes(right, up, zaxis);
    var ft := TransposeOf(f);
    var tNeg := TranslationOf(-position.x, -position.y, -position.z);
    var tPos := TranslationOf(position.x, position.y, position.z);
    ProductApply(ProductOf(f, tNeg), ProductOf(tPos, ft), v);
    ProductApply(tPos, ft, v);
    ProductApply(f, tNeg, Apply(tPos, Apply(ft, v)));
    TranslationCancel(position.x, position.y, position.z, Apply(ft, v));
    AxesInverse(right, up, zaxis, v);
  }

  /** With positive near and far planes, the centre of the screen looks straight down -z. */
  lemma CentreRay(fov: real, aspectRatio: real, near: real, far: real,
                  tan: real -> real, sqrt: real -> real)
    requires IsSqrt(sqrt)
    requires 0.0 < near && 0.0 < far
    ensures var m := InverseProjectionOf(fov, aspectRatio, near, far, tan);
            Unprojected(m, 0.0, 0.0).w != 0.0 &&
            CameraRayOf(m, 0.0, 0.0, sqrt) == Ray(Zero3, Vec3(0.0, 0.0, -1.0))
  {
    CentreUnprojected(fov, aspectRatio, near, far, tan);
    PlaneDirection(near, far, sqrt);
    CameraRayThrough(InverseProjectionOf(fov, aspectRatio, near, far, tan), 0.0, 0.0,
                     Vec4(0.0, 0.0, -(far * near), (near + far) / 2.0), sqrt);
  }

  lemma PlaneDirection(near: real, far: real, sqrt: real -> real)
    requires IsSqrt(sqrt) && 0.0 < near && 0.0 < far
    ensures var w := (near + far) / 2.0;
            UnitVector(Xyz(Div4(Vec4(0.0, 0.0, -(far * near), w), w)), sqrt) == Vec3(0.0, 0.0, -1.0)
  {
    PositiveProduct(far, near);
    CentreDirection(-(far * near), (near + far) / 2.0, sqrt);
  }

  /** generateRay in terms of the unprojected point. */
  lemma CameraRayThrough(m: Mat4, x: real, y: real, p: Vec4, sqrt: real -> real)
    requires Unprojected(m, x, y) == p && p.w != 0.0
    ensures CameraRayOf(m, x, y, sqrt) == Ray(Zero3, UnitVector(Xyz(Div4(p, p.w)), sqrt))
  {
  }

  /** The screen centre unprojects to (0, 0, -far * near, (near + far) / 2). */
  lemma CentreUnprojected(fov: real, aspectRatio: real, near: real, far: real, tan: real -> real)
    ensures Unprojected(InverseProjectionOf(fov, aspectRatio, near, far, tan), 0.0, 0.0)
         == Vec4(0.0, 0.0, -(far * near), (near + far) / 2.0)
  {
    var m := InverseProjectionOf(fov, aspectRatio, near, far, tan);
    assert m[3] == 0.0 && m[7] == 0.0;
    UnprojectCentre(m);
  }

  /** Dividing (0, 0, z, w) by w and normalising gives (0, 0, -1) when z < 0 < w. */
  lemma CentreDirection(z: real, w: real, sqrt: real -> real)
    requires IsSqrt(sqrt) && z < 0.0 < w
    ensures UnitVector(Xyz(Div4(Vec4(0.0, 0.0, z, w), w)), sqrt) == Vec3(0.0, 0.0, -1.0)
  {
    NegativeQuotient(z, w);
    DivideCentre(z, w);
    UnitOfNegativeZ(z / w, sqrt);
  }

  /** The screen centre (0, 0) picks column 3 of the inverse projection. */
  lemma UnprojectCentre(m: Mat4)
    ensures Unprojected(m, 0.0, 0.0) == Vec4(m[3], m[7], m[11], m[15])
  {
  }

  /** a / b is negative for a < 0 < b. */
  lemma NegativeQuotient(a: real, b: real)
    requires a < 0.0 < b
    ensures a / b < 0.0
  {
    var q := a / b;
    assert q * b == a;
    ProductSign(q, b);
  }

  lemma ProductSign(q: real, b: real)
    ensures 0.0 <= q && 0.0 < b ==> 0.0 <= q * b
  {
  }

  lemma DivideCentre(z: real, w: real)
    requires w != 0.0
    ensures Xyz(Div4(Vec4(0.0, 0.0, z, w), w)) == Vec3(0.0, 0.0, z / w)
  {
  }

  /** normalize((0, 0, c)) for c < 0 is (0, 0, -1). */
  lemma UnitOfNegativeZ(c: real, sqrt: real -> real)
    requires IsSqrt(sqrt) && c < 0.0
    ensures UnitVector(Vec3(0.0, 0.0, c), sqrt) == Vec3(0.0, 0.0, -1.0)
  {
    var v := Vec3(0.0, 0.0, c);
    assert LengthSquared(v) == c * c;
    SqrtOfSquare(sqrt, c);
    assert Length(v, sqrt) == -c;
    DivSelf(c);
    assert c / -c == -1.0;
  }

  /** `ToWorld` returns a unit direction, or the zero vector when the rotated direction is
      zero. */
  lemma ToWorldUnitOrZero(cameraToWorld: Mat4, direction: Vec3, sqrt: real -> real)
    requires IsSqrt(sqrt)
    ensures var d := ToWorldOf(cameraToWorld, direction, sqrt);
            d == Zero3 || LengthSquared(d) == 1.0
  {
    UnitVectorUnitOrZero(Xyz(Apply(cameraToWorld, FromVec3(direction, 0.0))), sqrt);
  }

  /** Every generated world ray leaves from the eye along a unit (or zero) direction. */
  lemma WorldRayFromEye(inverseProjection: Mat4, cameraToWorld: Mat4, position: Vec3,
                        point: Vec2f, sqrt: real -> real)
    requires IsSqrt(sqrt)
    requires Unprojected(inverseProjection, point.x, point.y).w != 0.0
    ensures var r := WorldRayOf(inverseProjection, cameraToWorld, position, point, sqrt);
            r.origin == position && (r.direction == Zero3 || LengthSquared(r.direction) == 1.0)
  {
    var d := CameraRayOf(inverseProjection, point.x, point.y, sqrt).direction;
    UnitVectorUnitOrZero(Xyz(Apply(cameraToWorld, FromVec3(d, 0.0))), sqrt);
  }

  /** With a zero bottom row apart from its last entry, the unprojected w does not depend
      on the screen point. */
  lemma UnprojectedW(m: Mat4, x: real, y: real)
    requires m[12] == 0.0 && m[13] == 0.0
    ensures Unprojected(m, x, y).w == m[15]
  {
  }

  /** The constructor's inverse projection has that shape, with w = (near + far) / 2:
      every screen point unprojects to a finite point unless near + far == 0. */
  lemma InverseProjectionW(fov: real, aspectRatio: real, near: real, far: real,
                           tan: real -> real, x: real, y: real)
    ensures var m := InverseProjectionOf(fov, aspectRatio, near, far, tan);
            m[12] == 0.0 && m[13] == 0.0 && Unprojected(m, x, y).w == (near + far) / 2.0
  {
    var m := InverseProjectionOf(fov, aspectRatio, near, far, tan);
    assert m[12] == 0.0 && m[13] == 0.0;
    UnprojectedW(m, x, y);
  }
}
