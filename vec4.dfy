/** The homogeneous 4-vector of src/Vec4.h. */
module Vec4s {
  import opened Numeric
  import opened Vectors

  datatype Vec4 = Vec4(x: real, y: real, z: real, w: real)

  /** `Vec4(v3, w)`: the three components of v3 followed by w. */
  function FromVec3(v: Vec3, w: real): (r: Vec4)
    ensures r.w == w
  {
    Vec4(v.x, v.y, v.z, w)
  }

  /** `xyz()`: drops w; it undoes FromVec3 whatever w was. */
  function Xyz(v: Vec4): (r: Vec3)
    ensures FromVec3(r, v.w) == v
  {
    Vec3(v.x, v.y, v.z)
  }

  /** `v /= s`: all four components, w included, are divided. */
  function Div4(v: Vec4, s: real): Vec4
    requires s != 0.0
  {
    Vec4(v.x / s, v.y / s, v.z / s, v.w / s)
  }

  function Scale4(v: Vec4, s: real): Vec4 {
    Vec4(v.x * s, v.y * s, v.z * s, v.w * s)
  }

  function LengthSquared4(v: Vec4): (r: real)
    ensures 0.0 <= r
  {
    Square(v.x);
    Square(v.y);
    Square(v.z);
    Square(v.w);
    v.x * v.x + v.y * v.y + v.z * v.z + v.w * v.w
  }

  /** `normalize(Vec4)`: scaled by the inverse length when the squared length is
      positive, returned unchanged otherwise. */
  function Normalize4(v: Vec4, sqrt: real -> real): Vec4
    requires IsSqrt(sqrt)
  {
    var lengthSq := LengthSquared4(v);
    if lengthSq > 0.0 then
      SqrtPositive(sqrt, lengthSq);
      Scale4(v, 1.0 / sqrt(lengthSq))
    else
      v
  }

  // ---------------------------------------------------------------- properties

  lemma XyzOfFromVec3(v: Vec3, w: real)
    ensures Xyz(FromVec3(v, w)) == v
  {
  }

  /** After `v /= v.w` with a non-zero w, w is 1 and x, y, z are divided by the old w. */
  lemma DivideByW(v: Vec4)
    requires v.w != 0.0
    ensures Div4(v, v.w).w == 1.0
    ensures Xyz(Div4(v, v.w)) == Div(Xyz(v), v.w)
  {
    DivSelf(v.w);
  }

  lemma LengthSquared4Zero(v: Vec4)
    ensures LengthSquared4(v) == 0.0 <==> v == Vec4(0.0, 0.0, 0.0, 0.0)
  {
    if LengthSquared4(v) == 0.0 {
      var x, y, z, w := v.x, v.y, v.z, v.w;
      Square(x);
      Square(y);
      Square(z);
      Square(w);
      assert x * x == 0.0 && y * y == 0.0 && z * z == 0.0 && w * w == 0.0;
      SquareZero(x);
      SquareZero(y);
      SquareZero(z);
      SquareZero(w);
    }
  }

  /** A vector of squared length 0 (only the zero vector) comes back unchanged. */
  lemma Normalize4OfZero(v: Vec4, sqrt: real -> real)
    requires IsSqrt(sqrt)
    requires LengthSquared4(v) <= 0.0
    ensures Normalize4(v, sqrt) == v
    ensures v == Vec4(0.0, 0.0, 0.0, 0.0)
  {
    LengthSquared4Zero(v);
  }

  /** Any other vector is normalised to 4-length 1. */
  lemma Normalize4IsUnit(v: Vec4, sqrt: real -> real)
    requires IsSqrt(sqrt)
    requires v != Vec4(0.0, 0.0, 0.0, 0.0)
    ensures LengthSquared4(Normalize4(v, sqrt)) == 1.0
  {
    var l2 := LengthSquared4(v);
    LengthSquared4Zero(v);
    SqrtPositive(sqrt, l2);
    var l := sqrt(l2);
    assert l * l == l2;
    var inv := 1.0 / l;
    assert Normalize4(v, sqrt) == Scale4(v, inv);
    assert LengthSquared4(Scale4(v, inv)) == inv * inv * l2;
    assert inv * inv == 1.0 / (l * l);
  }
}
