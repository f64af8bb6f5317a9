/** The row-major 4x4 matrix library of src/Matrix44.h: entry (i, j) of a matrix lives at
    index i * 4 + j of its 16 floats. */
module Matrix44 {
  import opened Vectors
  import opened Vec4s

  /** Matrix4x4: exactly 16 floats. */
  type Mat4 = s: seq<real> | |s| == 16 witness [0.0, 0.0, 0.0, 0.0, 0.0, 0.0, 0.0, 0.0, 0.0, 0.0, 0.0, 0.0, 0.0, 0.0, 0.0, 0.0]

  /** Entry (i, j) of m, stored at index i * 4 + j. */
  function Entry(m: Mat4, i: int, j: int): real
    requires 0 <= i < 4 && 0 <= j < 4
  {
    m[i * 4 + j]
  }

  /** The all-zero matrix. */
  const Zero: Mat4 := [0.0, 0.0, 0.0, 0.0,
                       0.0, 0.0, 0.0, 0.0,
                       0.0, 0.0, 0.0, 0.0,
                       0.0, 0.0, 0.0, 0.0]

  const Identity: Mat4 := [1.0, 0.0, 0.0, 0.0,
                           0.0, 1.0, 0.0, 0.0,
                           0.0, 0.0, 1.0, 0.0,
                           0.0, 0.0, 0.0, 1.0]

  /** Matrix4x4(): the default constructor zeroes the 16 entries in a loop. */
  method NewMatrix() returns (m: Mat4)
    ensures forall k :: 0 <= k < 16 ==> m[k] == 0.0
  {
    var data := new real[16];
    var i := 0;
    while i < 16
      invariant 0 <= i <= 16
      invariant forall k :: 0 <= k < i ==> data[k] == 0.0
    {
      data[i] := 0.0;
      i := i + 1;
    }
    m := data[..];
  }

  /** Row i of m, the four entries from index i * 4. */
  function RowOf(m: Mat4, i: int): Vec4
    requires 0 <= i < 4
  {
    Vec4(m[i * 4], m[i * 4 + 1], m[i * 4 + 2], m[i * 4 + 3])
  }

  function Dot4(u: Vec4, v: Vec4): real {
    u.x * v.x + u.y * v.y + u.z * v.z + u.w * v.w
  }

  /** `m * v` (operator*(Vec4)): row i of m dotted with v gives component i. */
  function Apply(m: Mat4, v: Vec4): Vec4 {
    Vec4(Dot4(RowOf(m, 0), v), Dot4(RowOf(m, 1), v), Dot4(RowOf(m, 2), v), Dot4(RowOf(m, 3), v))
  }

  /** The matrix with entry (i, j) of m at (j, i). */
  function TransposeOf(m: Mat4): (r: Mat4)
    ensures forall i, j :: 0 <= i < 4 && 0 <= j < 4 ==> Entry(r, i, j) == Entry(m, j, i)
  {
    [m[0], m[4], m[8], m[12],
     m[1], m[5], m[9], m[13],
     m[2], m[6], m[10], m[14],
     m[3], m[7], m[11], m[15]]
  }

  /** `transpose()`: the double loop writing result[i * 4 + j] = data[j * 4 + i]. */
  method Transpose(m: Mat4) returns (r: Mat4)
    ensures r == TransposeOf(m)
  {
    var data := new real[16];
    ghost var t := TransposeOf(m);
    var i := 0;
    while i < 4
      invariant 0 <= i <= 4
      invariant forall q :: 0 <= q < i * 4 ==> data[q] == t[q]
    {
      var j := 0;
      while j < 4
        invariant 0 <= j <= 4
        invariant forall q :: 0 <= q < i * 4 + j ==> data[q] == t[q]
      {
        data[i * 4 + j] := m[j * 4 + i];
        assert Entry(t, i, j) == Entry(m, j, i);
        j := j + 1;
      }
      i := i + 1;
    }
    r := data[..];
  }

  /** The translation by (x, y, z): the identity with x, y, z down the last column. */
  function TranslationOf(x: real, y: real, z: real): (r: Mat4)
    ensures r[3] == x && r[7] == y && r[11] == z
    ensures forall k :: 0 <= k < 16 && k != 3 && k != 7 && k != 11 ==> r[k] == Identity[k]
  {
    [1.0, 0.0, 0.0, x,
     0.0, 1.0, 0.0, y,
     0.0, 0.0, 1.0, z,
     0.0, 0.0, 0.0, 1.0]
  }

  /** Every entry of TranslationOf(x, y, z), spelled out for the proofs below. */
  lemma TranslationEntries(x: real, y: real, z: real)
    ensures var t := TranslationOf(x, y, z);
      t[0] == 1.0 && t[1] == 0.0 && t[2] == 0.0 && t[3] == x &&
      t[4] == 0.0 && t[5] == 1.0 && t[6] == 0.0 && t[7] == y &&
      t[8] == 0.0 && t[9] == 0.0 && t[10] == 1.0 && t[11] == z &&
      t[12] == 0.0 && t[13] == 0.0 && t[14] == 0.0 && t[15] == 1.0
  {
  }

  /** Mat4x4Translation: a zeroing loop, the diagonal set to 1, then x, y, z at 3, 7, 11. */
  method Translation(x: real, y: real, z: real) returns (r: Mat4)
    ensures r == TranslationOf(x, y, z)
  {
    var data := new real[16];
    var i := 0;
    while i < 16
      invariant 0 <= i <= 16
      invariant forall k :: 0 <= k < i ==> data[k] == 0.0
    {
      data[i] := 0.0;
      i := i + 1;
    }
    data[0] := 1.0;
    data[5] := 1.0;
    data[10] := 1.0;
    data[15] := 1.0;
    data[3] := x;
    data[7] := y;
    data[11] := z;
    r := data[..];
  }

  /** Mat4x4FromAxes: the three axes as rows 0..2, 0 in the last column, and row 3 =
      (0, 0, 0, 1).  The source fills a fresh matrix entry by entry, which is this value. */
  function FromAxes(xAxis: Vec3, yAxis: Vec3, zAxis: Vec3): (r: Mat4)
    ensures RowOf(r, 0) == FromVec3(xAxis, 0.0) && RowOf(r, 1) == FromVec3(yAxis, 0.0)
    ensures RowOf(r, 2) == FromVec3(zAxis, 0.0) && RowOf(r, 3) == Vec4(0.0, 0.0, 0.0, 1.0)
  {
    [xAxis.x, xAxis.y, xAxis.z, 0.0,
     yAxis.x, yAxis.y, yAxis.z, 0.0,
     zAxis.x, zAxis.y, zAxis.z, 0.0,
     0.0, 0.0, 0.0, 1.0]
  }

  /** The k-th term of row i of a times column j of b. */
  function Term(a: Mat4, b: Mat4, i: int, j: int, k: int): real
    requires 0 <= i < 4 && 0 <= j < 4 && 0 <= k < 4
  {
    a[i * 4 + k] * b[k * 4 + j]
  }

  /** The row vector r times b: component j is r dotted with column j of b. */
  function RowTimes(r: Vec4, b: Mat4): Vec4 {
    Vec4(r.x * b[0] + r.y * b[4] + r.z * b[8] + r.w * b[12],
         r.x * b[1] + r.y * b[5] + r.z * b[9] + r.w * b[13],
         r.x * b[2] + r.y * b[6] + r.z * b[10] + r.w * b[14],
         r.x * b[3] + r.y * b[7] + r.z * b[11] + r.w * b[15])
  }

  function Component(v: Vec4, j: int): real
    requires 0 <= j < 4
  {
    if j == 0 then v.x else if j == 1 then v.y else if j == 2 then v.z else v.w
  }

  /** The row-major product a * b: row i is row i of a times b. */
  function ProductOf(a: Mat4, b: Mat4): Mat4 {
    seq(16, k requires 0 <= k < 16 => Component(RowTimes(RowOf(a, k / 4), b), k % 4))
  }

  /** The first k terms of RowCol(a, b, i, j). */
  function PartialRowCol(a: Mat4, b: Mat4, i: int, j: int, k: int): real
    requires 0 <= i < 4 && 0 <= j < 4 && 0 <= k <= 4
  {
    if k == 0 then 0.0 else PartialRowCol(a, b, i, j, k - 1) + Term(a, b, i, j, k - 1)
  }

  /** Index i * 4 + j splits back into row i and column j. */
  lemma SplitIndex(i: int, j: int)
    requires 0 <= i < 4 && 0 <= j < 4
    ensures (i * 4 + j) / 4 == i && (i * 4 + j) % 4 == j
  {
    if i == 0 {
    } else if i == 1 {
    } else if i == 2 {
    } else {
    }
  }

  /** The accumulated sum over all four k is entry (i, j) of the product. */
  lemma ProductEntry(a: Mat4, b: Mat4, i: int, j: int)
    requires 0 <= i < 4 && 0 <= j < 4
    ensures ProductOf(a, b)[i * 4 + j] == PartialRowCol(a, b, i, j, 4)
  {
    ProductIndex(a, b, i, j);
    RowTimesComponent(a, b, i, j);
    PartialRowColFull(a, b, i, j);
  }

  lemma ProductIndex(a: Mat4, b: Mat4, i: int, j: int)
    requires 0 <= i < 4 && 0 <= j < 4
    ensures ProductOf(a, b)[i * 4 + j] == Component(RowTimes(RowOf(a, i), b), j)
  {
    SplitIndex(i, j);
  }

  lemma RowTimesComponent(a: Mat4, b: Mat4, i: int, j: int)
    requires 0 <= i < 4 && 0 <= j < 4
    ensures Component(RowTimes(RowOf(a, i), b), j)
         == a[i * 4] * b[j] + a[i * 4 + 1] * b[4 + j] + a[i * 4 + 2] * b[8 + j] + a[i * 4 + 3] * b[12 + j]
  {
    if j == 0 {
    } else if j == 1 {
    } else if j == 2 {
    } else {
    }
  }

  lemma PartialRowColFull(a: Mat4, b: Mat4, i: int, j: int)
    requires 0 <= i < 4 && 0 <= j < 4
    ensures PartialRowCol(a, b, i, j, 4)
         == a[i * 4] * b[j] + a[i * 4 + 1] * b[4 + j] + a[i * 4 + 2] * b[8 + j] + a[i * 4 + 3] * b[12 + j]
  {
    assert PartialRowCol(a, b, i, j, 1) == Term(a, b, i, j, 0);
    assert PartialRowCol(a, b, i, j, 2) == Term(a, b, i, j, 0) + Term(a, b, i, j, 1);
    assert PartialRowCol(a, b, i, j, 3) == Term(a, b, i, j, 0) + Term(a, b, i, j, 1) + Term(a, b, i, j, 2);
  }

  /** mat4x4_mul: the triple loop accumulating result[i * 4 + j] += A[i * 4 + k] * B[k * 4 + j]. */
  method Mul(a: Mat4, b: Mat4) returns (r: Mat4)
    ensures r == ProductOf(a, b)
  {
    var data := new real[16];
    ghost var p := ProductOf(a, b);
    var i := 0;
    while i < 4
      invariant 0 <= i <= 4
      invariant forall q :: 0 <= q < i * 4 ==> data[q] == p[q]
    {
      var j := 0;
      while j < 4
        invariant 0 <= j <= 4
        invariant forall q :: 0 <= q < i * 4 + j ==> data[q] == p[q]
      {
        data[i * 4 + j] := 0.0;
        var k := 0;
        while k < 4
          invariant 0 <= k <= 4
          invariant forall q :: 0 <= q < i * 4 + j ==> data[q] == p[q]
          invariant data[i * 4 + j] == PartialRowCol(a, b, i, j, k)
        {
          data[i * 4 + j] := data[i * 4 + j] + a[i * 4 + k] * b[k * 4 + j];
          assert data[i * 4 + j] == PartialRowCol(a, b, i, j, k) + Term(a, b, i, j, k);
          k := k + 1;
        }
        ProductEntry(a, b, i, j);
        j := j + 1;
      }
      i := i + 1;
    }
    r := data[..];
  }

  // ---------------------------------------------------------------- properties

  /** Transposing twice gives back the original matrix. */
  lemma TransposeInvolution(m: Mat4)
    ensures TransposeOf(TransposeOf(m)) == m
  {
  }

  /** A translation moves a point (w = 1) by (x, y, z) ... */
  lemma TranslationMovesPoint(x: real, y: real, z: real, p: Vec3)
    ensures Apply(TranslationOf(x, y, z), FromVec3(p, 1.0)) == FromVec3(Add(p, Vec3(x, y, z)), 1.0)
  {
  }

  /** ... and leaves a direction (w = 0) alone. */
  lemma TranslationKeepsDirection(x: real, y: real, z: real, d: Vec3)
    ensures Apply(TranslationOf(x, y, z), FromVec3(d, 0.0)) == FromVec3(d, 0.0)
  {
  }

  /** The rows of FromAxes project a vector onto the three axes; w passes through. */
  lemma FromAxesApply(a: Vec3, b: Vec3, c: Vec3, v: Vec3, w: real)
    ensures Apply(FromAxes(a, b, c), FromVec3(v, w)) == Vec4(Dot(a, v), Dot(b, v), Dot(c, v), w)
  {
  }

  /** Row i of a * b is row i of a times b. */
  lemma ProductRow(a: Mat4, b: Mat4, i: int)
    requires 0 <= i < 4
    ensures RowOf(ProductOf(a, b), i) == RowTimes(RowOf(a, i), b)
  {
    var p := ProductOf(a, b);
    var r := RowTimes(RowOf(a, i), b);
    SplitIndex(i, 0);
    SplitIndex(i, 1);
    SplitIndex(i, 2);
    SplitIndex(i, 3);
    assert p[i * 4] == r.x && p[i * 4 + 1] == r.y && p[i * 4 + 2] == r.z && p[i * 4 + 3] == r.w;
  }

  /** (r * b) . v == r . (b * v), the identity behind associativity. */
  lemma RowTimesDot(r: Vec4, b: Mat4, v: Vec4)
    ensures Dot4(RowTimes(r, b), v) == Dot4(r, Apply(b, v))
  {
    ExpandRowTimes(r, b, v);
    Distribute(r, b, v);
    ExpandApply(r, b, v);
  }

  lemma ExpandRowTimes(r: Vec4, b: Mat4, v: Vec4)
    ensures Dot4(RowTimes(r, b), v)
         == (r.x * b[0] + r.y * b[4] + r.z * b[8] + r.w * b[12]) * v.x
          + (r.x * b[1] + r.y * b[5] + r.z * b[9] + r.w * b[13]) * v.y
          + (r.x * b[2] + r.y * b[6] + r.z * b[10] + r.w * b[14]) * v.z
          + (r.x * b[3] + r.y * b[7] + r.z * b[11] + r.w * b[15]) * v.w
  {
  }

  lemma ExpandApply(r: Vec4, b: Mat4, v: Vec4)
    ensures Dot4(r, Apply(b, v))
         == r.x * (b[0] * v.x + b[1] * v.y + b[2] * v.z + b[3] * v.w)
          + r.y * (b[4] * v.x + b[5] * v.y + b[6] * v.z + b[7] * v.w)
          + r.z * (b[8] * v.x + b[9] * v.y + b[10] * v.z + b[11] * v.w)
          + r.w * (b[12] * v.x + b[13] * v.y + b[14] * v.z + b[15] * v.w)
  {
  }

  /** The polynomial identity behind RowTimesDot. */
  lemma Distribute(r: Vec4, b: Mat4, v: Vec4)
    ensures (r.x * b[0] + r.y * b[4] + r.z * b[8] + r.w * b[12]) * v.x
          + (r.x * b[1] + r.y * b[5] + r.z * b[9] + r.w * b[13]) * v.y
          + (r.x * b[2] + r.y * b[6] + r.z * b[10] + r.w * b[14]) * v.z
          + (r.x * b[3] + r.y * b[7] + r.z * b[11] + r.w * b[15]) * v.w
         == r.x * (b[0] * v.x + b[1] * v.y + b[2] * v.z + b[3] * v.w)
          + r.y * (b[4] * v.x + b[5] * v.y + b[6] * v.z + b[7] * v.w)
          + r.z * (b[8] * v.x + b[9] * v.y + b[10] * v.z + b[11] * v.w)
          + r.w * (b[12] * v.x + b[13] * v.y + b[14] * v.z + b[15] * v.w)
  {
  }

  /** mat4x4_mul agrees with operator*: (a * b) * v == a * (b * v). */
  lemma ProductApply(a: Mat4, b: Mat4, v: Vec4)
    ensures Apply(ProductOf(a, b), v) == Apply(a, Apply(b, v))
  {
    ProductRow(a, b, 0);
    RowTimesDot(RowOf(a, 0), b, v);
    ProductRow(a, b, 1);
    RowTimesDot(RowOf(a, 1), b, v);
    ProductRow(a, b, 2);
    RowTimesDot(RowOf(a, 2), b, v);
    ProductRow(a, b, 3);
    RowTimesDot(RowOf(a, 3), b, v);
  }

  /** Translating by -(x, y, z) undoes translating by (x, y, z): the product acts as the
      identity on every homogeneous vector. */
  /** Translating by (x, y, z) and then by -(x, y, z) gives back the vector. */
  lemma TranslationCancel(x: real, y: real, z: real, v: Vec4)
    ensures Apply(TranslationOf(-x, -y, -z), Apply(TranslationOf(x, y, z), v)) == v
  {
    TranslationEntries(x, y, z);
    TranslationEntries(-x, -y, -z);
  }

  lemma TranslationInverse(x: real, y: real, z: real, v: Vec4)
    ensures Apply(ProductOf(TranslationOf(-x, -y, -z), TranslationOf(x, y, z)), v) == v
  {
    ProductApply(TranslationOf(-x, -y, -z), TranslationOf(x, y, z), v);
    TranslationCancel(x, y, z, v);
  }

  /** a * v.x + b * v.y + c * v.z. */
  function Combine(a: Vec3, b: Vec3, c: Vec3, v: Vec4): Vec3 {
    Add(Add(Scale(a, v.x), Scale(b, v.y)), Scale(c, v.z))
  }

  /** The transposed basis matrix sends v to the combination of the axes weighted by v. */
  lemma TransposeAxesApply(a: Vec3, b: Vec3, c: Vec3, v: Vec4)
    ensures Apply(TransposeOf(FromAxes(a, b, c)), v) == FromVec3(Combine(a, b, c, v), v.w)
  {
  }

  lemma DotCombine(d: Vec3, a: Vec3, b: Vec3, c: Vec3, v: Vec4)
    ensures Dot(d, Combine(a, b, c, v)) == v.x * Dot(d, a) + v.y * Dot(d, b) + v.z * Dot(d, c)
  {
  }

  /** With orthonormal axes, the transposed basis matrix undoes the basis matrix. */
  lemma AxesInverse(a: Vec3, b: Vec3, c: Vec3, v: Vec4)
    requires Orthonormal(a, b, c)
    ensures Apply(FromAxes(a, b, c), Apply(TransposeOf(FromAxes(a, b, c)), v)) == v
  {
    var comb := Combine(a, b, c, v);
    TransposeAxesApply(a, b, c, v);
    FromAxesApply(a, b, c, comb, v.w);
    DotCombine(a, a, b, c, v);
    DotCombine(b, a, b, c, v);
    DotCombine(c, a, b, c, v);
    DotSymmetric(a, b);
    DotSymmetric(a, c);
    DotSymmetric(b, c);
    Pick(v.x, v.y, v.z, Dot(a, a), Dot(a, b), Dot(a, c));
    Pick(v.y, v.x, v.z, Dot(b, b), Dot(b, a), Dot(b, c));
    Pick(v.z, v.x, v.y, Dot(c, c), Dot(c, a), Dot(c, b));
  }

  lemma Pick(x: real, y: real, z: real, one: real, zero1: real, zero2: real)
    requires one == 1.0 && zero1 == 0.0 && zero2 == 0.0
    ensures x * one + y * zero1 + z * zero2 == x
    ensures y * zero1 + x * one + z * zero2 == x
    ensures y * zero1 + z * zero2 + x * one == x
  {
  }
}
