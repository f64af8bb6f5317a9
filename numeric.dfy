/** Scalar arithmetic shared by the whole renderer: the square-root law, C++'s integer
    division and float-to-int cast, std::clamp / std::min / std::max, std::fabs and the
    float limits used as default ray ranges.  Floats are modelled as exact reals. */
module Numeric {

  /** A real that may be divided by (a sphere radius, an index of refraction). */
  type NonZero = r: real | r != 0.0 witness 1.0

  /** The square root is passed around as a function value; this is the law it obeys
      on non-negative arguments (what `sqrt` promises for finite floats, read exactly). */
  ghost predicate IsSqrt(sqrt: real -> real) {
    forall x :: 0.0 <= x ==> 0.0 <= sqrt(x) && sqrt(x) * sqrt(x) == x
  }

  /** std::numeric_limits<float>::max(), that is (2 - 2^-23) * 2^127. */
  const FloatMax: real := 340282346638528859811704183484516925440.0

  /** std::numeric_limits<float>::min(), the smallest positive normal float, 2^-126. */
  const FloatMin: real := 1.0 / 85070591730234615865843651857942052864.0

  lemma ZeroProduct(p: real, q: real)
    requires p * q == 0.0
    ensures p == 0.0 || q == 0.0
  {
    if p != 0.0 {
      assert q == (p * q) / p;
    }
  }

  lemma Square(a: real)
    ensures 0.0 <= a * a
  {
    if a < 0.0 {
      assert a * a == (-a) * (-a);
    }
  }

  lemma NegTimes(a: real, b: real)
    ensures (-a) * b == -(a * b) && a * (-b) == -(a * b)
  {
    assert (-a) * b + a * b == (-a + a) * b;
    assert a * (-b) + a * b == a * (-b + b);
  }

  lemma DivSelf(s: real)
    requires s != 0.0
    ensures s / s == 1.0
  {
    var q := s / s;
    assert s * q == s;
    assert s * (q - 1.0) == 0.0;
    ZeroProduct(s, q - 1.0);
  }

  lemma PositiveProduct(p: real, q: real)
    requires 0.0 < p && 0.0 < q
    ensures 0.0 < p * q
  {
  }

  /** Only zero squares to zero. */
  lemma SquareZero(a: real)
    requires a * a == 0.0
    ensures a == 0.0
  {
    ZeroProduct(a, a);
  }

  lemma SqrtSquared(sqrt: real -> real, x: real)
    requires IsSqrt(sqrt) && 0.0 <= x
    ensures sqrt(x) * sqrt(x) == x
  {
  }

  /** A non-negative root of x is THE value of sqrt(x). */
  lemma SqrtUnique(sqrt: real -> real, x: real, s: real)
    requires IsSqrt(sqrt)
    requires 0.0 <= s && s * s == x
    ensures sqrt(x) == s
  {
    var q := sqrt(x);
    assert q * q == s * s;
    assert (q - s) * (q + s) == 0.0;
    ZeroProduct(q - s, q + s);
  }

  lemma SqrtOfSquare(sqrt: real -> real, y: real)
    requires IsSqrt(sqrt)
    ensures sqrt(y * y) == Abs(y)
  {
    SqrtUnique(sqrt, y * y, Abs(y));
  }

  lemma SqrtPositive(sqrt: real -> real, x: real)
    requires IsSqrt(sqrt)
    ensures 0.0 < x ==> 0.0 < sqrt(x)
    ensures x == 0.0 ==> sqrt(x) == 0.0
    ensures x == 1.0 ==> sqrt(x) == 1.0
  {
    if x == 0.0 {
      SqrtUnique(sqrt, x, 0.0);
    } else if x == 1.0 {
      SqrtUnique(sqrt, x, 1.0);
    }
  }

  /** std::fabs. */
  function Abs(x: real): (r: real)
    ensures 0.0 <= r && (r == x || r == -x)
  {
    if x < 0.0 then -x else x
  }

  /** std::fmin. */
  function MinReal(a: real, b: real): (r: real)
    ensures r <= a && r <= b && (r == a || r == b)
  {
    if a < b then a else b
  }

  /** std::clamp(v, lo, hi), which is `v < lo ? lo : hi < v ? hi : v`. */
  function Clamp(v: real, lo: real, hi: real): (r: real)
    requires lo <= hi
    ensures lo <= r <= hi
    ensures lo <= v <= hi ==> r == v
    ensures v < lo ==> r == lo
    ensures hi < v ==> r == hi
  {
    if v < lo then lo else if hi < v then hi else v
  }

  /** std::max on int. */
  function MaxInt(a: int, b: int): (r: int)
    ensures a <= r && b <= r && (r == a || r == b)
  {
    if a < b then b else a
  }

  /** std::min on int. */
  function MinInt(a: int, b: int): (r: int)
    ensures r <= a && r <= b && (r == a || r == b)
  {
    if a < b then a else b
  }

  /** C++ `a / 2` on int, which truncates toward zero (Dafny's `/` is Euclidean). */
  function TruncHalf(a: int): (q: int)
    ensures 0 <= a ==> 0 <= 2 * q <= a <= 2 * q + 1
    ensures a < 0 ==> 2 * q - 1 <= a <= 2 * q <= 0
  {
    if 0 <= a then a / 2 else -((-a) / 2)
  }

  /** static_cast<int> of a finite float: truncation toward zero. */
  function TruncToInt(r: real): (n: int)
    ensures 0.0 <= r ==> n as real <= r < n as real + 1.0
    ensures r < 0.0 ==> n as real - 1.0 < r <= n as real
  {
    if 0.0 <= r then r.Floor else -((-r).Floor)
  }
}
