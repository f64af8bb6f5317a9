/** The per-pixel renderer of src/main.cpp, `MSAA(camera, scene, img)`: for every pixel,
    row by row, 500 jittered screen points around the pixel centre are traced through the
    camera into the scene, their colours averaged, and the average stored in the pixel's
    three channels as gamma-corrected byte values. */
module Rendering {
  import opened Numeric
  import opened Vectors
  import opened Rays
  import opened Spheres
  import opened Scenes
  import opened Utils
  import opened Cameras
  import opened Images
  import opened Sampling
  import opened Tracing
  import Matrix44

  /** Samples traced per pixel. */
  const SamplesPerPixel: int := 500

  /** Bounces allowed per path. */
  const MaxDepth: int := 50

  /** An inverse projection whose bottom row sends every screen point to a finite point:
      its w coordinate is m[15] whatever the point.  The camera constructor builds one
      whenever near + far != 0. */
  predicate FiniteUnprojection(m: Matrix44.Mat4) {
    m[12] == 0.0 && m[13] == 0.0 && m[15] != 0.0
  }

  /** The centre of pixel (x, y) in screen space. */
  function ScreenPoint(x: int, y: int, width: int, height: int): Vec2f
    requires width != 0 && height != 0
  {
    NdcToScreen(RasterToNdc(Vec2i(x, y), width, height))
  }

  /** The sampling window in screen units: 5 / (2 width) across, that is 1.25 pixels, since
      a screen spans 2 units over `width` pixels. */
  function SampleWindow(width: int, height: int): Vec2f
    requires width != 0 && height != 0
  {
    Vec2f(5.0 / (2.0 * width as real), 5.0 / (2.0 * height as real))
  }

  /** The colour of the world ray through screen point `point`. */
  function SampleColour(objects: seq<Sphere>, inverseProjection: Matrix44.Mat4,
                        cameraToWorld: Matrix44.Mat4, position: Vec3, point: Vec2f,
                        draw: int -> Vec3, sqrt: real -> real): Vec3
    requires FiniteUnprojection(inverseProjection)
  {
    UnprojectedW(inverseProjection, point.x, point.y);
    TraceColour(objects, WorldRayOf(inverseProjection, cameraToWorld, position, point, sqrt),
                MaxDepth, draw, sqrt)
  }

  /** The sum of the colours of the given samples of pixel (x, y); its sample i uses the
      random draws `paths(x, y, i)`. */
  function SumColours(objects: seq<Sphere>, inverseProjection: Matrix44.Mat4,
                      cameraToWorld: Matrix44.Mat4, position: Vec3, samples: seq<Vec2f>,
                      x: int, y: int, paths: (int, int, int) -> (int -> Vec3),
                      sqrt: real -> real): Vec3
    requires FiniteUnprojection(inverseProjection)
    decreases |samples|
  {
    if samples == [] then Zero3
    else
      var n := |samples| - 1;
      Add(SumColours(objects, inverseProjection, cameraToWorld, position, samples[..n],
                     x, y, paths, sqrt),
          SampleColour(objects, inverseProjection, cameraToWorld, position, samples[n],
                       paths(x, y, n), sqrt))
  }

  /** The colour MSAA computes for pixel (x, y): the mean over the jittered samples of
      `get_pixels(screenPoint, window, 500)`.  `jitter(x, y)` gives the pixel's offset
      draws and `paths(x, y, i)` the material draws of its sample i. */
  function PixelColour(objects: seq<Sphere>, inverseProjection: Matrix44.Mat4,
                       cameraToWorld: Matrix44.Mat4, position: Vec3,
                       x: int, y: int, width: int, height: int,
                       jitter: (int, int) -> (int -> Vec2f), paths: (int, int, int) -> (int -> Vec3),
                       sqrt: real -> real): Vec3
    requires width != 0 && height != 0
    requires FiniteUnprojection(inverseProjection)
  {
    var samples := JitteredSamples(ScreenPoint(x, y, width, height), SampleWindow(width, height),
                                   SamplesPerPixel, jitter(x, y));
    Div(SumColours(objects, inverseProjection, cameraToWorld, position, samples, x, y, paths, sqrt),
        SamplesPerPixel as real)
  }

  /** The body of MSAA's pixel loop up to the colour: sample, trace, sum, divide. */
  method RenderPixel(camera: Camera, scene: Scene, x: int, y: int, width: int, height: int,
                     jitter: (int, int) -> (int -> Vec2f), paths: (int, int, int) -> (int -> Vec3),
                     sqrt: real -> real)
    returns (colour: Vec3)
    requires width != 0 && height != 0
    requires FiniteUnprojection(camera.inverseProjection)
    ensures colour == PixelColour(scene.objects, camera.inverseProjection, camera.cameraToWorld,
                                  camera.position, x, y, width, height, jitter, paths, sqrt)
  {
    var screenPoint := NdcToScreen(RasterToNdc(Vec2i(x, y), width, height));
    var nearestPixels := GetPixelsFloat(screenPoint, SampleWindow(width, height),
                                        SamplesPerPixel, jitter(x, y));
    colour := Vec3(0.0, 0.0, 0.0);
    var i := 0;
    while i < |nearestPixels|
      invariant 0 <= i <= |nearestPixels|
      invariant colour == SumColours(scene.objects, camera.inverseProjection, camera.cameraToWorld,
                                     camera.position, nearestPixels[..i], x, y, paths, sqrt)
    {
      var pixel := nearestPixels[i];
      UnprojectedW(camera.inverseProjection, pixel.x, pixel.y);
      var worldRay := camera.GenerateWorldRay(pixel, sqrt);
      var c := Trace(scene, worldRay, MaxDepth, paths(x, y, i), sqrt);
      assert nearestPixels[..i + 1][..i] == nearestPixels[..i];
      colour := Add(colour, c);
      i := i + 1;
    }
    assert nearestPixels[..i] == nearestPixels;
    assert |nearestPixels| == SamplesPerPixel;
    colour := Div(colour, |nearestPixels| as real);
  }

  /** Channels c of pixel (x, y) in the three-channel buffer `data` hold the quantised
      colour. */
  predicate PixelStored(data: seq<int>, width: int, x: int, y: int, c: Vec3, sqrt: real -> real) {
    var offset := PixelOffset(width, 3, x, y);
    0 <= offset && offset + 3 <= |data| &&
    data[offset] == Quantize(c.x, sqrt) &&
    data[offset + 1] == Quantize(c.y, sqrt) &&
    data[offset + 2] == Quantize(c.z, sqrt)
  }

  /** `pixelData[k] = static_cast<int>(256 * clamp(sqrt(c), 0, 0.999))` for the three
      channels, through the row accessor `img[y]` and the element `row[x]`.  For the char
      image the program renders the accessor's extra sizeof factor is 1. */
  method StorePixel(img: Image, x: int, y: int, colour: Vec3, sqrt: real -> real)
    requires img.Valid() && img.numChannels == 3
    requires 0 <= x < img.width && 0 <= y < img.height
    modifies img.data
    ensures PixelStored(img.data[..], img.width, x, y, colour, sqrt)
    ensures var offset := PixelOffset(img.width, 3, x, y);
            forall i :: 0 <= i < img.data.Length && !(offset <= i < offset + 3) ==>
              img.data[i] == old(img.data[i])
  {
    PixelInBounds(img.width, img.height, 3, x, y);
    RowOffsetsAgreeForBytes(img.width, 3, y);
    var pixelData := RowOffsetAsWritten(img.width, img.numChannels, y, 1) + x * img.numChannels;
    img.data[pixelData] := Quantize(colour.x, sqrt);
    img.data[pixelData + 1] := Quantize(colour.y, sqrt);
    img.data[pixelData + 2] := Quantize(colour.z, sqrt);
  }

  /** Pixels rendered before (x, y) in row-major order. */
  predicate Rendered(px: int, py: int, x: int, y: int) {
    py < y || (py == y && px < x)
  }

  /** Everything a pixel's colour depends on: the scene's objects, the camera's matrices
      and position, the image size and the random draws. */
  datatype Setup = Setup(objects: seq<Sphere>, inverseProjection: Matrix44.Mat4,
                         cameraToWorld: Matrix44.Mat4, position: Vec3, width: int, height: int,
                         jitter: (int, int) -> (int -> Vec2f),
                         paths: (int, int, int) -> (int -> Vec3), sqrt: real -> real)

  predicate Ready(s: Setup) {
    0 < s.width && 0 < s.height && FiniteUnprojection(s.inverseProjection)
  }

  /** Every pixel before (x, y) holds its colour. */
  predicate AllRendered(data: seq<int>, s: Setup, x: int, y: int)
    requires Ready(s)
  {
    forall px, py :: 0 <= px < s.width && 0 <= py < s.height && Rendered(px, py, x, y) ==>
      PixelStored(data, s.width, px, py, PixelColour(s.objects, s.inverseProjection, s.cameraToWorld, s.position,
                                          px, py, s.width, s.height, s.jitter, s.paths, s.sqrt), s.sqrt)
  }

  /** `MSAA(camera, scene, img)`: afterwards every pixel of the image holds its quantised
      mean sample colour. */
  method MSAA(camera: Camera, scene: Scene, img: Image,
              jitter: (int, int) -> (int -> Vec2f), paths: (int, int, int) -> (int -> Vec3),
              sqrt: real -> real)
    requires img.Valid() && img.numChannels == 3
    requires FiniteUnprojection(camera.inverseProjection)
    modifies img.data
    ensures forall px, py :: 0 <= px < img.width && 0 <= py < img.height ==>
              PixelStored(img.data[..], img.width, px, py,
                          PixelColour(scene.objects, camera.inverseProjection, camera.cameraToWorld,
                                      camera.position, px, py, img.width, img.height,
                                      jitter, paths, sqrt), sqrt)
  {
    if img.width == 0 || img.height == 0 {
      return;
    }
    ghost var s := Setup(scene.objects, camera.inverseProjection, camera.cameraToWorld,
                         camera.position, img.width, img.height, jitter, paths, sqrt);
    var y := 0;
    while y < img.height
      invariant 0 <= y <= img.height
      invariant AllRendered(img.data[..], s, 0, y)
    {
      var x := 0;
      while x < img.width
        invariant 0 <= x <= img.width
        invariant AllRendered(img.data[..], s, x, y)
      {
        var colour := RenderPixel(camera, scene, x, y, img.width, img.height, jitter, paths, sqrt);
        ghost var before := img.data[..];
        StorePixel(img, x, y, colour, sqrt);
        RenderedGrows(before, img.data[..], s, x, y);
        x := x + 1;
      }
      RowDone(img.data[..], s, y);
      y := y + 1;
    }
    AllDone(img.data[..], s);
  }

  /** Once every row is done every pixel holds its colour. */
  lemma AllDone(data: seq<int>, s: Setup)
    requires Ready(s) && AllRendered(data, s, 0, s.height)
    ensures forall px, py :: 0 <= px < s.width && 0 <= py < s.height ==>
              PixelStored(data, s.width, px, py,
                          PixelColour(s.objects, s.inverseProjection, s.cameraToWorld, s.position,
                                      px, py, s.width, s.height, s.jitter, s.paths, s.sqrt), s.sqrt)
  {
    forall px, py | 0 <= px < s.width && 0 <= py < s.height
      ensures PixelStored(data, s.width, px, py, PixelColour(s.objects, s.inverseProjection, s.cameraToWorld, s.position,
                                          px, py, s.width, s.height, s.jitter, s.paths, s.sqrt), s.sqrt)
    {
      assert Rendered(px, py, 0, s.height);
    }
  }

  /** Storing pixel (x, y) extends the rendered prefix by one pixel. */
  lemma RenderedGrows(before: seq<int>, after: seq<int>, s: Setup, x: int, y: int)
    requires Ready(s) && 0 <= x < s.width && 0 <= y < s.height
    requires |after| == |before| && AllRendered(before, s, x, y)
    requires PixelStored(after, s.width, x, y, PixelColour(s.objects, s.inverseProjection, s.cameraToWorld, s.position,
                                             x, y, s.width, s.height, s.jitter, s.paths, s.sqrt), s.sqrt)
    requires var offset := PixelOffset(s.width, 3, x, y);
             forall i :: 0 <= i < |after| && !(offset <= i < offset + 3) ==> after[i] == before[i]
    ensures AllRendered(after, s, x + 1, y)
  {
    forall px, py | 0 <= px < s.width && 0 <= py < s.height && Rendered(px, py, x + 1, y)
      ensures PixelStored(after, s.width, px, py, PixelColour(s.objects, s.inverseProjection, s.cameraToWorld, s.position,
                                          px, py, s.width, s.height, s.jitter, s.paths, s.sqrt), s.sqrt)
    {
      if (px, py) != (x, y) {
        PixelsDisjoint(s.width, s.height, 3, px, py, x, y);
        StoredKept(before, after, s.width, x, y, px, py, PixelColour(s.objects, s.inverseProjection, s.cameraToWorld, s.position,
                                          px, py, s.width, s.height, s.jitter, s.paths, s.sqrt), s.sqrt);
      }
    }
  }

  /** A finished row is the start of the next one. */
  lemma RowDone(data: seq<int>, s: Setup, y: int)
    requires Ready(s) && AllRendered(data, s, s.width, y)
    ensures AllRendered(data, s, 0, y + 1)
  {
    forall px, py | 0 <= px < s.width && 0 <= py < s.height && Rendered(px, py, 0, y + 1)
      ensures PixelStored(data, s.width, px, py, PixelColour(s.objects, s.inverseProjection, s.cameraToWorld, s.position,
                                          px, py, s.width, s.height, s.jitter, s.paths, s.sqrt), s.sqrt)
    {
      assert Rendered(px, py, s.width, y);
    }
  }

  /** Writing outside pixel (px, py)'s three channels keeps what it holds. */
  lemma StoredKept(before: seq<int>, after: seq<int>, width: int, x: int, y: int,
                   px: int, py: int, c: Vec3, sqrt: real -> real)
    requires |after| == |before| && PixelStored(before, width, px, py, c, sqrt)
    requires var offset, o := PixelOffset(width, 3, x, y), PixelOffset(width, 3, px, py);
             o + 3 <= offset || offset + 3 <= o
    requires var offset := PixelOffset(width, 3, x, y);
             forall i :: 0 <= i < |after| && !(offset <= i < offset + 3) ==> after[i] == before[i]
    ensures PixelStored(after, width, px, py, c, sqrt)
  {
    var o := PixelOffset(width, 3, px, py);
    assert after[o] == before[o] && after[o + 1] == before[o + 1] && after[o + 2] == before[o + 2];
  }

  // ---------------------------------------------------------------- properties

  /** Every sample of pixel (x, y) lies on the screen and, for draws in [-1, 1]^2, within
      half the sampling window (0.625 pixels) of the pixel centre, which itself lies strictly
      inside the screen. */
  lemma SamplesAroundCentre(x: int, y: int, width: int, height: int, offset: Vec2f)
    requires 0 <= x < width && 0 <= y < height
    requires -1.0 <= offset.x <= 1.0 && -1.0 <= offset.y <= 1.0
    ensures var centre := ScreenPoint(x, y, width, height);
            -1.0 < centre.x < 1.0 && -1.0 < centre.y < 1.0
    ensures var centre, window := ScreenPoint(x, y, width, height), SampleWindow(width, height);
            var sample := Jitter(centre, window, offset);
            Abs(sample.x - centre.x) <= window.x / 2.0 && Abs(sample.y - centre.y) <= window.y / 2.0
  {
    var ndc := RasterToNdc(Vec2i(x, y), width, height);
    PixelCentreInsideNdc(Vec2i(x, y), width, height);
    NdcToScreenCorners(ndc, ndc);
    var window := SampleWindow(width, height);
    assert 0.0 <= window.x && 0.0 <= window.y by {
      assert 0.0 < 2.0 * width as real && 0.0 < 2.0 * height as real;
    }
    SampleInWindow(ScreenPoint(x, y, width, height), window, offset);
  }

  /** With albedos in the unit cube every pixel's colour is in the unit cube: each sample's
      colour is, and the mean of colours in the cube stays in it. */
  lemma PixelColourInUnitCube(objects: seq<Sphere>, inverseProjection: Matrix44.Mat4,
                              cameraToWorld: Matrix44.Mat4, position: Vec3,
                              x: int, y: int, width: int, height: int,
                              jitter: (int, int) -> (int -> Vec2f),
                              paths: (int, int, int) -> (int -> Vec3), sqrt: real -> real)
    requires IsSqrt(sqrt)
    requires width != 0 && height != 0 && FiniteUnprojection(inverseProjection)
    requires forall j :: 0 <= j < |objects| ==> AlbedoBounded(objects[j].mat)
    ensures InUnitCube(PixelColour(objects, inverseProjection, cameraToWorld, position,
                                   x, y, width, height, jitter, paths, sqrt))
  {
    var samples := JitteredSamples(ScreenPoint(x, y, width, height), SampleWindow(width, height),
                                   SamplesPerPixel, jitter(x, y));
    var sum := SumColours(objects, inverseProjection, cameraToWorld, position, samples, x, y, paths, sqrt);
    SumBounded(objects, inverseProjection, cameraToWorld, position, samples, x, y, paths, sqrt);
    assert |samples| == 500;
    MeanInUnitCube(sum, 500.0);
  }

  /** A sum of n colours from the unit cube lies in the cube scaled by n. */
  lemma {:induction false} SumBounded(objects: seq<Sphere>, inverseProjection: Matrix44.Mat4,
                                      cameraToWorld: Matrix44.Mat4, position: Vec3,
                                      samples: seq<Vec2f>, x: int, y: int,
                                      paths: (int, int, int) -> (int -> Vec3), sqrt: real -> real)
    requires IsSqrt(sqrt) && FiniteUnprojection(inverseProjection)
    requires forall j :: 0 <= j < |objects| ==> AlbedoBounded(objects[j].mat)
    ensures var sum := SumColours(objects, inverseProjection, cameraToWorld, position,
                                  samples, x, y, paths, sqrt);
            var n := |samples| as real;
            0.0 <= sum.x <= n && 0.0 <= sum.y <= n && 0.0 <= sum.z <= n
    decreases |samples|
  {
    if samples != [] {
      var k := |samples| - 1;
      SumBounded(objects, inverseProjection, cameraToWorld, position, samples[..k], x, y, paths, sqrt);
      UnprojectedW(inverseProjection, samples[k].x, samples[k].y);
      TraceInUnitCube(objects, WorldRayOf(inverseProjection, cameraToWorld, position, samples[k], sqrt),
                      MaxDepth, paths(x, y, k), sqrt);
    }
  }

  lemma MeanInUnitCube(sum: Vec3, n: real)
    requires 0.0 < n
    requires 0.0 <= sum.x <= n && 0.0 <= sum.y <= n && 0.0 <= sum.z <= n
    ensures InUnitCube(Div(sum, n))
  {
    QuotientAtMostOne(sum.x, n);
    QuotientAtMostOne(sum.y, n);
    QuotientAtMostOne(sum.z, n);
  }

  lemma QuotientAtMostOne(a: real, n: real)
    requires 0.0 < n && 0.0 <= a <= n
    ensures 0.0 <= a / n <= 1.0
  {
    DivMonotone(a, n, n);
    DivMonotone(0.0, a, n);
    DivSelf(n);
  }

  /** A scene every ray sees in colour c renders every pixel in colour c: the mean of 500
      equal colours is that colour. */
  lemma UniformSceneRendersUniformly(objects: seq<Sphere>, inverseProjection: Matrix44.Mat4,
                                     cameraToWorld: Matrix44.Mat4, position: Vec3,
                                     x: int, y: int, width: int, height: int,
                                     jitter: (int, int) -> (int -> Vec2f),
                                     paths: (int, int, int) -> (int -> Vec3),
                                     sqrt: real -> real, c: Vec3)
    requires width != 0 && height != 0 && FiniteUnprojection(inverseProjection)
    requires forall p, draw :: SampleColour(objects, inverseProjection, cameraToWorld, position,
                                            p, draw, sqrt) == c
    ensures PixelColour(objects, inverseProjection, cameraToWorld, position,
                        x, y, width, height, jitter, paths, sqrt) == c
  {
    var samples := JitteredSamples(ScreenPoint(x, y, width, height), SampleWindow(width, height),
                                   SamplesPerPixel, jitter(x, y));
    SumOfUniform(objects, inverseProjection, cameraToWorld, position, samples, x, y, paths, sqrt, c);
    assert |samples| == 500;
    ScaleThenDivide(c, 500.0);
  }

  lemma ScaleThenDivide(c: Vec3, n: real)
    requires n != 0.0
    ensures Div(Scale(c, n), n) == c
  {
    assert c.x * n / n == c.x && c.y * n / n == c.y && c.z * n / n == c.z;
  }

  /** n equal colours sum to n times that colour. */
  lemma {:induction false} SumOfUniform(objects: seq<Sphere>, inverseProjection: Matrix44.Mat4,
                                        cameraToWorld: Matrix44.Mat4, position: Vec3,
                                        samples: seq<Vec2f>, x: int, y: int,
                                        paths: (int, int, int) -> (int -> Vec3),
                                        sqrt: real -> real, c: Vec3)
    requires FiniteUnprojection(inverseProjection)
    requires forall p, draw :: SampleColour(objects, inverseProjection, cameraToWorld, position,
                                            p, draw, sqrt) == c
    ensures SumColours(objects, inverseProjection, cameraToWorld, position, samples, x, y, paths, sqrt)
         == Scale(c, |samples| as real)
    decreases |samples|
  {
    if samples != [] {
      var k := |samples| - 1;
      SumOfUniform(objects, inverseProjection, cameraToWorld, position, samples[..k],
                   x, y, paths, sqrt, c);
      var prefix := SumColours(objects, inverseProjection, cameraToWorld, position, samples[..k],
                               x, y, paths, sqrt);
      var last := SampleColour(objects, inverseProjection, cameraToWorld, position, samples[k],
                               paths(x, y, k), sqrt);
      assert SumColours(objects, inverseProjection, cameraToWorld, position, samples,
                        x, y, paths, sqrt) == Add(prefix, last);
      assert prefix == Scale(c, k as real) && last == c;
      ScaleStep(c, k as real);
      assert k as real + 1.0 == |samples| as real;
    } else {
      ScaleByZero(c, |samples| as real);
    }
  }

  lemma ScaleByZero(c: Vec3, z: real)
    requires z == 0.0
    ensures Scale(c, z) == Zero3
  {
  }

  lemma ScaleStep(c: Vec3, n: real)
    ensures Add(Scale(c, n), c) == Scale(c, n + 1.0)
  {
    assert c.x * n + c.x == c.x * (n + 1.0);
    assert c.y * n + c.y == c.y * (n + 1.0);
    assert c.z * n + c.z == c.z * (n + 1.0);
  }
}
