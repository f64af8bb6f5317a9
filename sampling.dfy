/** Pixel sampling and colour quantisation of src/main.cpp: the two `get_pixels`
    overloads (the window of integer pixels around a pixel, and jittered samples around
    a screen point) and the gamma-and-clamp step that turns a colour channel into a byte
    value. */
module Sampling {
  import opened Numeric
  import opened Vectors
  import opened Utils

  // ---------------------------------------------------------------- get_pixels(Vec2i)

  /** The inclusive bounds of the window the integer `get_pixels` walks. */
  datatype Window = Window(x0: int, x1: int, y0: int, y1: int)

  /** Half the window each way (C++ integer division), cut off at the image border. */
  function WindowOf(pixel: Vec2i, windowSize: Vec2i, imageSize: Vec2i): Window {
    var halfX, halfY := TruncHalf(windowSize.x), TruncHalf(windowSize.y);
    Window(MaxInt(0, pixel.x - halfX), MinInt(pixel.x + halfX, imageSize.x - 1),
           MaxInt(0, pixel.y - halfY), MinInt(pixel.y + halfY, imageSize.y - 1))
  }

  /** The number of integers in [lo, hi]. */
  function Span(lo: int, hi: int): nat {
    if hi < lo then 0 else hi - lo + 1
  }

  /** Row y from x0 to x1 inclusive, left to right. */
  function RowRun(y: int, x0: int, x1: int): seq<Vec2i> {
    seq(Span(x0, x1), k => Vec2i(x0 + k, y))
  }

  /** Rows y0 to y1 inclusive, top to bottom, each from x0 to x1. */
  function WindowRows(x0: int, x1: int, y0: int, y1: int): seq<Vec2i>
    decreases y1 - y0
  {
    if y1 < y0 then [] else WindowRows(x0, x1, y0, y1 - 1) + RowRun(y1, x0, x1)
  }

  function WindowPoints(w: Window): seq<Vec2i> {
    WindowRows(w.x0, w.x1, w.y0, w.y1)
  }

  /** `get_pixels(pixel, windowSize, imageSize)`: the pixels of the window, row by row. */
  method GetPixelsInt(pixel: Vec2i, windowSize: Vec2i, imageSize: Vec2i)
    returns (nearestPixels: seq<Vec2i>)
    ensures nearestPixels == WindowPoints(WindowOf(pixel, windowSize, imageSize))
  {
    var halfWindowSizeX := TruncHalf(windowSize.x);
    var halfWindowSizeY := TruncHalf(windowSize.y);
    var windowOriginX := MaxInt(0, pixel.x - halfWindowSizeX);
    var windowOriginY := MaxInt(0, pixel.y - halfWindowSizeY);
    var maxX := MinInt(pixel.x + halfWindowSizeX, imageSize.x - 1);
    var maxY := MinInt(pixel.y + halfWindowSizeY, imageSize.y - 1);
    nearestPixels := [];
    var y := windowOriginY;
    while y <= maxY
      invariant windowOriginY <= y && (y <= maxY + 1 || y == windowOriginY)
      invariant nearestPixels == WindowRows(windowOriginX, maxX, windowOriginY, y - 1)
      decreases maxY - y
    {
      var x := windowOriginX;
      while x <= maxX
        invariant windowOriginX <= x && (x <= maxX + 1 || x == windowOriginX)
        invariant nearestPixels == WindowRows(windowOriginX, maxX, windowOriginY, y - 1)
                                   + RowRun(y, windowOriginX, x - 1)
        decreases maxX - x
      {
        RowRunExtend(y, windowOriginX, x);
        nearestPixels := nearestPixels + [Vec2i(x, y)];
        x := x + 1;
      }
      assert RowRun(y, windowOriginX, x - 1) == RowRun(y, windowOriginX, maxX);
      y := y + 1;
    }
  }

  lemma RowRunExtend(y: int, x0: int, x: int)
    requires x0 <= x
    ensures RowRun(y, x0, x) == RowRun(y, x0, x - 1) + [Vec2i(x, y)]
  {
  }

  /** A point is in the window's list exactly when it lies inside the bounds. */
  lemma {:induction false} WindowMembership(x0: int, x1: int, y0: int, y1: int, p: Vec2i)
    ensures p in WindowRows(x0, x1, y0, y1) <==> x0 <= p.x <= x1 && y0 <= p.y <= y1
    decreases y1 - y0
  {
    if y0 <= y1 {
      WindowMembership(x0, x1, y0, y1 - 1, p);
      assert p in RowRun(y1, x0, x1) <==> x0 <= p.x <= x1 && p.y == y1 by {
        if x0 <= p.x <= x1 && p.y == y1 {
          assert RowRun(y1, x0, x1)[p.x - x0] == p;
        }
      }
    }
  }

  /** The list holds one entry per pixel of the window: width times height. */
  lemma {:induction false} WindowCount(x0: int, x1: int, y0: int, y1: int)
    ensures |WindowRows(x0, x1, y0, y1)| == Span(x0, x1) * Span(y0, y1)
    decreases y1 - y0
  {
    if y0 <= y1 {
      WindowCount(x0, x1, y0, y1 - 1);
      assert Span(y0, y1) == Span(y0, y1 - 1) + 1;
      assert Span(x0, x1) * (Span(y0, y1 - 1) + 1)
          == Span(x0, x1) * Span(y0, y1 - 1) + Span(x0, x1);
    }
  }

  /** Row-major order: pixel (x, y) of the window sits at index
      (y - y0) * width + (x - x0). */
  lemma {:induction false} WindowRowMajor(x0: int, x1: int, y0: int, y1: int, p: Vec2i)
    requires x0 <= p.x <= x1 && y0 <= p.y <= y1
    ensures var i := (p.y - y0) * Span(x0, x1) + (p.x - x0);
            0 <= i < |WindowRows(x0, x1, y0, y1)| && WindowRows(x0, x1, y0, y1)[i] == p
    decreases y1 - y0
  {
    var w := Span(x0, x1);
    var i := (p.y - y0) * w + (p.x - x0);
    WindowCount(x0, x1, y0, y1 - 1);
    var before := WindowRows(x0, x1, y0, y1 - 1);
    if p.y < y1 {
      WindowRowMajor(x0, x1, y0, y1 - 1, p);
    } else {
      assert |before| == i - (p.x - x0) by {
        assert Span(y0, y1 - 1) == p.y - y0;
      }
      assert RowRun(y1, x0, x1)[p.x - x0] == p;
    }
  }

  /** The integer window, in the program's terms: a pixel is listed exactly when it lies
      in the image and within half the window size (rounded toward zero) of `pixel` on
      each axis. */
  lemma GetPixelsIntContents(pixel: Vec2i, windowSize: Vec2i, imageSize: Vec2i, p: Vec2i)
    ensures var halfX, halfY := TruncHalf(windowSize.x), TruncHalf(windowSize.y);
            p in WindowPoints(WindowOf(pixel, windowSize, imageSize)) <==>
              (0 <= p.x < imageSize.x && 0 <= p.y < imageSize.y &&
               pixel.x - halfX <= p.x <= pixel.x + halfX &&
               pixel.y - halfY <= p.y <= pixel.y + halfY)
  {
    var w := WindowOf(pixel, windowSize, imageSize);
    WindowMembership(w.x0, w.x1, w.y0, w.y1, p);
  }

  // ---------------------------------------------------------------- get_pixels(Vec2f)

  /** One sample: the point moved by the random offset (each coordinate drawn from
      [-1, 1]) times half the window, and clamped to the screen square [-1, 1]^2. */
  function Jitter(pixel: Vec2f, windowSize: Vec2f, offset: Vec2f): (s: Vec2f)
    ensures -1.0 <= s.x <= 1.0 && -1.0 <= s.y <= 1.0
  {
    var halfWindowSizeX, halfWindowSizeY := windowSize.x / 2.0, windowSize.y / 2.0;
    Vec2f(Clamp(pixel.x + offset.x * halfWindowSizeX, -1.0, 1.0),
          Clamp(pixel.y + offset.y * halfWindowSizeY, -1.0, 1.0))
  }

  /** The samples `get_pixels(pixel, windowSize, numSamples)` returns, where `draw(i)` is
      the pair of random numbers drawn for sample i. */
  function JitteredSamples(pixel: Vec2f, windowSize: Vec2f, numSamples: int, draw: int -> Vec2f)
    : seq<Vec2f>
  {
    seq(MaxInt(0, numSamples), i => Jitter(pixel, windowSize, draw(i)))
  }

  /** `get_pixels(pixel, windowSize, numSamples)`. */
  method GetPixelsFloat(pixel: Vec2f, windowSize: Vec2f, numSamples: int, draw: int -> Vec2f)
    returns (sampledPixels: seq<Vec2f>)
    ensures sampledPixels == JitteredSamples(pixel, windowSize, numSamples, draw)
  {
    sampledPixels := [];
    var i := 0;
    while i < numSamples
      invariant 0 <= i <= MaxInt(0, numSamples)
      invariant sampledPixels == JitteredSamples(pixel, windowSize, i, draw)
    {
      sampledPixels := sampledPixels + [Jitter(pixel, windowSize, draw(i))];
      i := i + 1;
    }
  }

  /** There are max(0, numSamples) samples, all on the screen square. */
  lemma SamplesOnScreen(pixel: Vec2f, windowSize: Vec2f, numSamples: int, draw: int -> Vec2f)
    ensures var samples := JitteredSamples(pixel, windowSize, numSamples, draw);
            |samples| == MaxInt(0, numSamples) &&
            forall i :: 0 <= i < |samples| ==>
              -1.0 <= samples[i].x <= 1.0 && -1.0 <= samples[i].y <= 1.0
  {
  }

  /** For a point on the screen and draws in [-1, 1]^2 each sample lies within half the
      window of the point: clamping only ever moves a sample back toward the screen,
      where the point is. */
  lemma SampleInWindow(pixel: Vec2f, windowSize: Vec2f, offset: Vec2f)
    requires -1.0 <= pixel.x <= 1.0 && -1.0 <= pixel.y <= 1.0
    requires 0.0 <= windowSize.x && 0.0 <= windowSize.y
    requires -1.0 <= offset.x <= 1.0 && -1.0 <= offset.y <= 1.0
    ensures var s := Jitter(pixel, windowSize, offset);
            Abs(s.x - pixel.x) <= windowSize.x / 2.0 && Abs(s.y - pixel.y) <= windowSize.y / 2.0
  {
    ClampNear(pixel.x, offset.x, windowSize.x / 2.0);
    ClampNear(pixel.y, offset.y, windowSize.y / 2.0);
  }

  lemma ClampNear(p: real, o: real, h: real)
    requires -1.0 <= p <= 1.0 && 0.0 <= h && -1.0 <= o <= 1.0
    ensures Abs(Clamp(p + o * h, -1.0, 1.0) - p) <= h
  {
    assert Abs(o * h) <= h by {
      OffsetBound(o, h);
    }
  }

  lemma OffsetBound(o: real, h: real)
    requires 0.0 <= h && -1.0 <= o <= 1.0
    ensures -h <= o * h <= h
  {
    MulMonotone(o, 1.0, h);
    MulMonotone(-1.0, o, h);
    assert 1.0 * h == h;
    assert -1.0 * h == -h;
  }

  /** With an empty window every sample is the point itself. */
  lemma ZeroWindowSamples(pixel: Vec2f, numSamples: int, draw: int -> Vec2f)
    requires -1.0 <= pixel.x <= 1.0 && -1.0 <= pixel.y <= 1.0
    ensures forall s :: s in JitteredSamples(pixel, Vec2f(0.0, 0.0), numSamples, draw) ==> s == pixel
  {
    var samples := JitteredSamples(pixel, Vec2f(0.0, 0.0), numSamples, draw);
    forall i | 0 <= i < |samples|
      ensures samples[i] == pixel
    {
      var o := draw(i);
      assert o.x * (0.0 / 2.0) == 0.0 && o.y * (0.0 / 2.0) == 0.0;
    }
  }

  // ---------------------------------------------------------------- quantisation

  /** `static_cast<int>(256 * clamp(sqrt(c), 0, 0.999))`: gamma 2 correction, then a byte
      value in [0, 255]. */
  function Quantize(c: real, sqrt: real -> real): (n: int)
    ensures 0 <= n <= 255
  {
    TruncToInt(256.0 * Clamp(sqrt(c), 0.0, 0.999))
  }

  /** Black maps to 0 and white to 255. */
  lemma QuantizeEnds(sqrt: real -> real)
    requires IsSqrt(sqrt)
    ensures Quantize(0.0, sqrt) == 0 && Quantize(1.0, sqrt) == 255
  {
    SqrtPositive(sqrt, 0.0);
    SqrtPositive(sqrt, 1.0);
    assert 256.0 * 0.999 == 255.744;
  }

  /** Brighter channels never get smaller byte values. */
  lemma QuantizeMonotone(c1: real, c2: real, sqrt: real -> real)
    requires IsSqrt(sqrt) && 0.0 <= c1 <= c2
    ensures Quantize(c1, sqrt) <= Quantize(c2, sqrt)
  {
    assert sqrt(c1) <= sqrt(c2) by {
      SqrtMonotone(c1, c2, sqrt);
    }
    var k1, k2 := Clamp(sqrt(c1), 0.0, 0.999), Clamp(sqrt(c2), 0.0, 0.999);
    assert k1 <= k2;
    assert 256.0 * k1 <= 256.0 * k2;
    TruncMonotone(256.0 * k1, 256.0 * k2);
  }

  lemma SqrtMonotone(c1: real, c2: real, sqrt: real -> real)
    requires IsSqrt(sqrt) && 0.0 <= c1 <= c2
    ensures sqrt(c1) <= sqrt(c2)
  {
    var s1, s2 := sqrt(c1), sqrt(c2);
    assert 0.0 <= s1 && s1 * s1 == c1 && 0.0 <= s2 && s2 * s2 == c2;
    if s2 < s1 {
      SquaresOrdered(s2, s1);
    }
  }

  lemma TruncMonotone(a: real, b: real)
    requires 0.0 <= a <= b
    ensures TruncToInt(a) <= TruncToInt(b)
  {
  }
}
