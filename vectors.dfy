/** The value types of src/math.hpp: the 3-component vector Vec3 and the 2-component
    TVec2 (instantiated as Vec2f and Vec2i), with their arithmetic, dot and cross
    products and unit_vector / normalize. */
module Vectors {
  import opened Numeric

  /** Vec3: three float components.  `Vec3()` is Zero3. */
  datatype Vec3 = Vec3(x: real, y: real, z: real)

  const Zero3: Vec3 := Vec3(0.0, 0.0, 0.0)

  /** TVec2<float>. */
  datatype Vec2f = Vec2f(x: real, y: real)

  /** TVec2<int>. */
  datatype Vec2i = Vec2i(x: int, y: int)

  // ---------------------------------------------------------------- Vec3 operators

  function Neg(v: Vec3): Vec3 {
    Vec3(-v.x, -v.y, -v.z)
  }

  function Add(a: Vec3, b: Vec3): Vec3 {
    Vec3(a.x + b.x, a.y + b.y, a.z + b.z)
  }

  function Sub(a: Vec3, b: Vec3): Vec3 {
    Vec3(a.x - b.x, a.y - b.y, a.z - b.z)
  }

  /** `v * s`; the free `s * v` computes the very same components. */
  function Scale(v: Vec3, s: real): Vec3 {
    Vec3(v.x * s, v.y * s, v.z * s)
  }

  /** `v / s`. */
  function Div(v: Vec3, s: real): Vec3
    requires s != 0.0
  {
    Vec3(v.x / s, v.y / s, v.z / s)
  }

  /** The component-wise product `u * v` of src/utils.h (colour attenuation). */
  function Mul(u: Vec3, v: Vec3): Vec3 {
    Vec3(u.x * v.x, u.y * v.y, u.z * v.z)
  }

  function Dot(a: Vec3, b: Vec3): real {
    a.x * b.x + a.y * b.y + a.z * b.z
  }

  function Cross(a: Vec3, b: Vec3): Vec3 {
    Vec3(a.y * b.z - a.z * b.y,
         a.z * b.x - a.x * b.z,
         a.x * b.y - a.y * b.x)
  }

  /** length_squared(): never negative (LengthSquaredZero: zero only for Zero3). */
  function LengthSquared(v: Vec3): (r: real)
    ensures 0.0 <= r
  {
    Square(v.x);
    Square(v.y);
    Square(v.z);
    v.x * v.x + v.y * v.y + v.z * v.z
  }

  function Length(v: Vec3, sqrt: real -> real): real {
    sqrt(LengthSquared(v))
  }

  /** unit_vector (and its alias normalize): v divided by its length, or the zero vector
      when the length is not positive. */
  function UnitVector(v: Vec3, sqrt: real -> real): Vec3 {
    var length := Length(v, sqrt);
    if length > 0.0 then Div(v, length) else Zero3
  }

  /** Three pairwise orthogonal unit vectors. */
  predicate Orthonormal(a: Vec3, b: Vec3, c: Vec3) {
    Dot(a, a) == 1.0 && Dot(b, b) == 1.0 && Dot(c, c) == 1.0 &&
    Dot(a, b) == 0.0 && Dot(a, c) == 0.0 && Dot(b, c) == 0.0
  }

  // ---------------------------------------------------------------- TVec2 operators

  function Add2(a: Vec2f, b: Vec2f): Vec2f {
    Vec2f(a.x + b.x, a.y + b.y)
  }

  function Sub2(a: Vec2f, b: Vec2f): Vec2f {
    Vec2f(a.x - b.x, a.y - b.y)
  }

  function Neg2(v: Vec2f): Vec2f {
    Vec2f(-v.x, -v.y)
  }

  function Scale2(v: Vec2f, s: real): Vec2f {
    Vec2f(v.x * s, v.y * s)
  }

  function Div2(v: Vec2f, s: real): Vec2f
    requires s != 0.0
  {
    Vec2f(v.x / s, v.y / s)
  }

  function Dot2(a: Vec2f, b: Vec2f): real {
    a.x * b.x + a.y * b.y
  }

  function LengthSquared2(v: Vec2f): real {
    v.x * v.x + v.y * v.y
  }

  // ---------------------------------------------------------------- properties

  /** `dot` is symmetric and `dot(v, v)` is `v.length_squared()`. */
  lemma DotSymmetric(a: Vec3, b: Vec3)
    ensures Dot(a, b) == Dot(b, a)
    ensures Dot(a, a) == LengthSquared(a)
  {
  }

  lemma DotScale(v: Vec3, s: real, w: Vec3)
    ensures Dot(Scale(v, s), w) == s * Dot(v, w)
    ensures Dot(w, Scale(v, s)) == s * Dot(w, v)
  {
  }

  lemma DotNeg(v: Vec3, w: Vec3)
    ensures Dot(Neg(v), w) == -Dot(v, w)
    ensures Dot(w, Neg(v)) == -Dot(w, v)
  {
    NegTimes(v.x, w.x);
    NegTimes(v.y, w.y);
    NegTimes(v.z, w.z);
    assert Dot(Neg(v), w) == -Dot(v, w);
    DotSymmetric(w, Neg(v));
    DotSymmetric(w, v);
  }

  /** cross(a, b) is orthogonal to both factors. */
  lemma CrossOrthogonal(a: Vec3, b: Vec3)
    ensures Dot(Cross(a, b), a) == 0.0
    ensures Dot(Cross(a, b), b) == 0.0
  {
  }

  /** Lagrange's identity: |a x b|^2 = |a|^2 |b|^2 - (a . b)^2. */
  lemma CrossLengthSquared(a: Vec3, b: Vec3)
    ensures LengthSquared(Cross(a, b))
         == LengthSquared(a) * LengthSquared(b) - Dot(a, b) * Dot(a, b)
  {
  }

  /** `v * s` and `s * v` agree, and scaling by 1 is the identity. */
  lemma ScaleOne(v: Vec3)
    ensures Scale(v, 1.0) == v
  {
  }

  lemma LengthSquaredScale(v: Vec3, s: real)
    ensures LengthSquared(Scale(v, s)) == s * s * LengthSquared(v)
  {
  }

  /** Only the zero vector has squared length 0. */
  lemma LengthSquaredZero(v: Vec3)
    ensures LengthSquared(v) == 0.0 <==> v == Zero3
  {
    if LengthSquared(v) == 0.0 {
      var x, y, z := v.x, v.y, v.z;
      Square(x);
      Square(y);
      Square(z);
      assert x * x == 0.0 && y * y == 0.0 && z * z == 0.0;
      SquareZero(x);
      SquareZero(y);
      SquareZero(z);
    }
  }

  /** Normalising a vector of zero length gives the zero vector, not NaN. */
  lemma UnitVectorOfZero(v: Vec3, sqrt: real -> real)
    requires IsSqrt(sqrt)
    requires LengthSquared(v) == 0.0
    ensures UnitVector(v, sqrt) == Zero3
    ensures v == Zero3
  {
    SqrtPositive(sqrt, LengthSquared(v));
    LengthSquaredZero(v);
  }

  /** unit_vector of a non-zero vector has length 1. */
  lemma UnitVectorIsUnit(v: Vec3, sqrt: real -> real)
    requires IsSqrt(sqrt)
    requires v != Zero3
    ensures 0.0 < Length(v, sqrt)
            && UnitVector(v, sqrt) == Scale(v, 1.0 / Length(v, sqrt))
    ensures LengthSquared(UnitVector(v, sqrt)) == 1.0
    ensures Length(UnitVector(v, sqrt), sqrt) == 1.0
  {
    var l2 := LengthSquared(v);
    var l := Length(v, sqrt);
    LengthSquaredZero(v);
    SqrtPositive(sqrt, l2);
    assert l * l == l2;
    var u := UnitVector(v, sqrt);
    assert u == Scale(v, 1.0 / l);
    LengthSquaredScale(v, 1.0 / l);
    assert (1.0 / l) * (1.0 / l) * l2 == 1.0 by {
      assert (1.0 / l) * (1.0 / l) == 1.0 / (l * l);
    }
    SqrtPositive(sqrt, 1.0);
  }

  /** unit_vector yields either a unit vector or the zero vector. */
  lemma UnitVectorUnitOrZero(v: Vec3, sqrt: real -> real)
    requires IsSqrt(sqrt)
    ensures var u := UnitVector(v, sqrt);
            (v == Zero3 && u == Zero3) || (v != Zero3 && LengthSquared(u) == 1.0)
  {
    if v == Zero3 {
      UnitVectorOfZero(v, sqrt);
    } else {
      UnitVectorIsUnit(v, sqrt);
    }
  }
}
