/** Camera.h / Camera.cpp: the image size, the viewport set-up, the jittered
    primary rays and the anti-aliased render into an RGBA8 buffer. */
module Cameras {
  import opened Vectors
  import opened Numerics
  import opened ExtReals
  import opened Intervals
  import opened Rays
  import opened Materials
  import opened Spheres
  import opened HittableLists
  import opened Shading
  import opened Pixels
  import opened Viewport
  import Utils

  /** glm::u32vec2 imageSize */
  datatype ImageSize = ImageSize(x: nat, y: nat)

  /** The first value an unsigned 32-bit integer cannot hold. */
  const U32Limit: int := 0x1_0000_0000

  /** The default and only value of maxRecursionDepth. */
  const DefaultDepth: int := 10

  /** imageSize.y: width / aspectRatio converted to an unsigned integer,
      raised to 1 when that is 0. */
  function ImageHeight(width: nat, aspectRatio: real): (h: nat)
    requires aspectRatio > 0.0
    ensures h >= 1
  {
    var y := Trunc((width as real) / aspectRatio);
    if y < 1 then 1 else y
  }

  /** The height is the whole part of width / aspectRatio, or 1 when that
      ratio is below 1. */
  lemma ImageHeightIsFloor(width: nat, aspectRatio: real)
    requires aspectRatio > 0.0
    ensures var ratio := (width as real) / aspectRatio;
            var h := ImageHeight(width, aspectRatio);
            (ratio < 1.0 ==> h == 1) && (ratio >= 1.0 ==> h as real <= ratio < (h + 1) as real)
  {
    var ratio := (width as real) / aspectRatio;
    assert ratio >= 0.0;
  }

  /** sampleSquare, with its two calls of generateRandomNumber(0, 1) passed
      in as u. */
  function SampleSquare(u: (real, real)): (offset: Vec3)
    ensures offset.z == 0.0
    ensures 0.0 <= u.0 < 1.0 && 0.0 <= u.1 < 1.0 ==>
              -0.5 <= offset.x < 0.5 && -0.5 <= offset.y < 0.5
  {
    Vec3(u.0 - 0.5, u.1 - 0.5, 0.0)
  }

  /** The static intensity interval of convertColor. */
  const Intensity: Interval := Interval(Fin(0.0), Fin(0.999))

  /** One channel of convertColor: int(256 * intensity.clamp(c)). */
  function Quantise(c: real): (b: Byte)
    ensures c <= 0.0 ==> b == 0
    ensures c >= 0.999 ==> b == 255
    ensures 0.0 <= c <= 0.999 ==> b == (256.0 * c).Floor
  {
    var clamped := Intensity.Clamp(Fin(c));
    ToByte(Trunc(256.0 * clamped.v))
  }

  /** A brighter channel never quantises to a smaller byte. */
  lemma QuantiseMonotone(c: real, d: real)
    requires c <= d
    ensures Quantise(c) <= Quantise(d)
  {
    ClampMonotone(Intensity, Fin(c), Fin(d));
    var x := Intensity.Clamp(Fin(c)).v;
    var y := Intensity.Clamp(Fin(d)).v;
    assert 0.0 <= x <= y;
    assert (256.0 * x).Floor <= (256.0 * y).Floor;
  }

  /** Camera::convertColor: the three channels quantised, alpha opaque. */
  function ConvertColor(color: Vec3): (px: DataPixels)
    ensures px.a == 255
    ensures px.r == Quantise(color.x) && px.g == Quantise(color.y) && px.b == Quantise(color.z)
  {
    DataPixels(Quantise(color.x), Quantise(color.y), Quantise(color.z), 255)
  }

  /** Camera::rayColor: normal shading on a hit in (0, infinity), the sky
      gradient on a miss; it agrees with Ray::color without the alpha. */
  function CameraRayColor(r: Ray, world: seq<Sphere>, m: Primitives): (color: Vec3)
    ensures color == Rgb(Color(r, world, m))
  {
    match ListHit(world, r, Interval(Fin(0.0), Utils.Infinity), m)
    case Some(rec) => Scale(0.5, Add(rec.normal, One))
    case None =>
      var unitDir := m.normalize(r.direction);
      var a := 0.5 * (unitDir.y + 1.0);
      Add(Scale(1.0 - a, One), Scale(a, SkyBlue))
  }

  /** The camera state render reads. */
  datatype RenderView = RenderView(grid: Grid, center: Vec3, scale: real, samples: int)

  /** The number of times the sample loop runs. */
  function SamplesTaken(samples: int): nat {
    if samples < 0 then 0 else samples
  }

  /** The ray of one sample of pixel (i, j), jittered by the draws u. */
  function SampleRay(v: RenderView, i: nat, j: nat, u: (real, real)): Ray {
    PixelRay(v.grid, v.center, i, j, SampleSquare(u))
  }

  /** pixelColor after n samples of pixel (i, j); uniform(i, j, s) are the
      draws of sample s. */
  function SampleSum(v: RenderView, world: seq<Sphere>, uniform: (nat, nat, nat) -> (real, real),
                     m: Primitives, i: nat, j: nat, n: nat): Vec3
  {
    if n == 0 then Zero
    else Add(SampleSum(v, world, uniform, m, i, j, n - 1),
             CameraRayColor(SampleRay(v, i, j, uniform(i, j, n - 1)), world, m))
  }

  /** The pixel render appends for (i, j). */
  function PixelColor(v: RenderView, world: seq<Sphere>, uniform: (nat, nat, nat) -> (real, real),
                      m: Primitives, i: nat, j: nat): DataPixels
  {
    ConvertColor(Scale(v.scale, SampleSum(v, world, uniform, m, i, j, SamplesTaken(v.samples))))
  }

  function PixelFn(v: RenderView, world: seq<Sphere>, uniform: (nat, nat, nat) -> (real, real),
                   m: Primitives): (nat, nat) -> DataPixels
  {
    (i: nat, j: nat) => PixelColor(v, world, uniform, m, i, j)
  }

  /** The whole w x h image, row by row. */
  function Image(v: RenderView, w: nat, h: nat, world: seq<Sphere>,
                 uniform: (nat, nat, nat) -> (real, real), m: Primitives): seq<DataPixels>
  {
    RowMajor(w, h, PixelFn(v, world, uniform, m))
  }

  /** The image has w * h pixels and entry j * w + i is the pixel (i, j). */
  lemma ImagePixel(v: RenderView, w: nat, h: nat, world: seq<Sphere>,
                   uniform: (nat, nat, nat) -> (real, real), m: Primitives, i: nat, j: nat)
    requires i < w && j < h
    ensures |Image(v, w, h, world, uniform, m)| == w * h
    ensures j * w + i < w * h
    ensures Image(v, w, h, world, uniform, m)[j * w + i] == PixelColor(v, world, uniform, m, i, j)
  {
    RowMajorIndex(w, h, PixelFn(v, world, uniform, m), j, i);
  }

  /** Every pixel of the camera's image is opaque. */
  lemma ImageOpaque(v: RenderView, w: nat, h: nat, world: seq<Sphere>,
                    uniform: (nat, nat, nat) -> (real, real), m: Primitives)
    ensures forall k :: 0 <= k < |Image(v, w, h, world, uniform, m)| ==> Image(v, w, h, world, uniform, m)[k].a == 255
  {
    var f := PixelFn(v, world, uniform, m);
    RowMajorAll(w, h, f, OpaquePixel);
  }

  /** With one sample, scale 1 and centred draws the camera's pixel is the
      colour of the un-jittered ray through the pixel, as in the window loop. */
  lemma SingleCentredSample(v: RenderView, world: seq<Sphere>, uniform: (nat, nat, nat) -> (real, real),
                            m: Primitives, i: nat, j: nat)
    requires v.samples == 1 && v.scale == 1.0
    requires uniform(i, j, 0) == (0.5, 0.5)
    ensures PixelColor(v, world, uniform, m, i, j) ==
            ConvertColor(Rgb(Color(PixelRay(v.grid, v.center, i, j, Zero), world, m)))
  {
    var r := PixelRay(v.grid, v.center, i, j, Zero);
    assert SampleRay(v, i, j, uniform(i, j, 0)) == r by {
      assert SampleSquare(uniform(i, j, 0)) == Zero;
    }
    var c := CameraRayColor(r, world, m);
    assert SampleSum(v, world, uniform, m, i, j, 1) == Add(Zero, c);
    assert Scale(1.0, Add(Zero, c)) == c;
  }

  /** A sum of n colours in the unit cube lies in [0, n] per channel. */
  lemma {:induction false} SampleSumBounds(v: RenderView, world: seq<Sphere>, uniform: (nat, nat, nat) -> (real, real),
                                           m: Primitives, i: nat, j: nat, n: nat)
    requires forall s: nat :: s < n ==> InBox(CameraRayColor(SampleRay(v, i, j, uniform(i, j, s)), world, m), 0.0, 1.0)
    ensures InBox(SampleSum(v, world, uniform, m, i, j, n), 0.0, n as real)
  {
    if n > 0 {
      SampleSumBounds(v, world, uniform, m, i, j, n - 1);
      assert InBox(CameraRayColor(SampleRay(v, i, j, uniform(i, j, n - 1)), world, m), 0.0, 1.0);
    }
  }

  /** Scaling a colour in [0, n] by 1 / n lands in the unit cube. */
  lemma AverageInUnitCube(c: Vec3, n: nat)
    requires n > 0 && InBox(c, 0.0, n as real)
    ensures InBox(Scale(1.0 / (n as real), c), 0.0, 1.0)
  {
    var k := 1.0 / (n as real);
    AverageChannel(c.x, n);
    AverageChannel(c.y, n);
    AverageChannel(c.z, n);
  }

  lemma AverageChannel(x: real, n: nat)
    requires n > 0 && 0.0 <= x <= n as real
    ensures 0.0 <= (1.0 / (n as real)) * x <= 1.0
  {
    var k := 1.0 / (n as real);
    assert k > 0.0;
    MulMonotone(k, 0.0, x);
    MulMonotone(k, x, n as real);
    assert k * (n as real) == 1.0;
  }

  /** In a scene of spheres with positive radii, the colour averaged over
      the samples of every pixel lies in the unit cube before quantisation
      (for a negative sample count no sample is taken and it is black). */
  lemma PixelAverageInUnitCube(v: RenderView, w: nat, h: nat, world: seq<Sphere>,
                               uniform: (nat, nat, nat) -> (real, real), m: Primitives, i: nat, j: nat)
    requires m.SqrtLaw() && m.NormalizeLaw()
    requires forall k :: 0 <= k < |world| ==> world[k].radius > 0.0
    requires w > 0 && h > 0 && v.grid == ViewportGrid(v.center, w as real, h as real)
    requires v.samples != 0 && v.scale == 1.0 / (v.samples as real)
    ensures InBox(Scale(v.scale, SampleSum(v, world, uniform, m, i, j, SamplesTaken(v.samples))), 0.0, 1.0)
  {
    var n := SamplesTaken(v.samples);
    if n == 0 {
      // a negative count: the sample loop does not run and the pixel is black
      assert Scale(v.scale, SampleSum(v, world, uniform, m, i, j, 0)) == Zero;
      return;
    }
    forall s: nat | s < n
      ensures InBox(CameraRayColor(SampleRay(v, i, j, uniform(i, j, s)), world, m), 0.0, 1.0)
    {
      var r := SampleRay(v, i, j, uniform(i, j, s));
      PixelDirection(v.center, w as real, h as real, i, j, SampleSquare(uniform(i, j, s)));
      assert r.direction.z == -1.0;
      ColorInUnitCube(r, world, m);
    }
    SampleSumBounds(v, world, uniform, m, i, j, n);
    AverageInUnitCube(SampleSum(v, world, uniform, m, i, j, n), n);
  }

  /** class Camera */
  class Camera {
    var pixelSampleScale: real
    var aspectRatio: real
    var perPixelSamples: int
    var maxRecursionDepth: int
    var imageSize: ImageSize
    var center: Vec3
    /** pixel00_loc, pixelDelta_u and pixelDelta_v */
    var grid: Grid
    var data: seq<DataPixels>

    /** The relations the constructor establishes between the fields. */
    predicate Valid()
      reads this
    {
      && imageSize.x >= 1 && imageSize.y >= 1
      && perPixelSamples != 0
      && pixelSampleScale == 1.0 / (perPixelSamples as real)
      && grid == ViewportGrid(center, imageSize.x as real, imageSize.y as real)
    }

    function View(): RenderView
      reads this`grid, this`center, this`pixelSampleScale, this`perPixelSamples
    {
      RenderView(grid, center, pixelSampleScale, perPixelSamples)
    }

    /** Camera(aspectRat, imgWidth, samplesPerPx) */
    constructor (aspectRat: real, imgWidth: int, samplesPerPx: int)
      requires aspectRat > 0.0
      requires 1 <= imgWidth
      requires (imgWidth as real) < (U32Limit as real) * aspectRat
      requires samplesPerPx != 0
      ensures imageSize == ImageSize(imgWidth, ImageHeight(imgWidth, aspectRat))
      ensures aspectRatio == aspectRat && perPixelSamples == samplesPerPx
      ensures maxRecursionDepth == DefaultDepth
      ensures center == Zero
      ensures data == []
      ensures Valid()
    {
      perPixelSamples := samplesPerPx;
      pixelSampleScale := 1.0 / (samplesPerPx as real);
      aspectRatio := aspectRat;
      maxRecursionDepth := DefaultDepth;
      var height := ImageHeight(imgWidth, aspectRat);
      imageSize := ImageSize(imgWidth, height);
      center := Zero;
      new;
      SetUpViewport();
      data := [];
    }

    /** The viewport part of the constructor: the viewport width from the
        image's aspect, the per-pixel deltas and the centre of pixel (0, 0). */
    method SetUpViewport()
      requires imageSize.x >= 1 && imageSize.y >= 1
      modifies this`grid
      ensures grid == ViewportGrid(center, imageSize.x as real, imageSize.y as real)
    {
      var w := imageSize.x as real;
      var h := imageSize.y as real;
      var viewportU := Vec3(ViewportHeight * (w / h), 0.0, 0.0);
      var viewportV := Vec3(0.0, -ViewportHeight, 0.0);
      var pixelDeltaU := Div(viewportU, w);
      var pixelDeltaV := Div(viewportV, h);
      var upperLeft := Sub(Sub(Sub(center, Vec3(0.0, 0.0, FocalLength)), Div(viewportU, 2.0)), Div(viewportV, 2.0));
      var pixel00Loc := Add(upperLeft, Scale(0.5, Add(pixelDeltaU, pixelDeltaV)));
      grid := Grid(pixel00Loc, pixelDeltaU, pixelDeltaV);
      GridFromViewport(center, w, h);
    }

    /** getImageSize: the stored size, at least 1 x 1 once constructed. */
    function GetImageSize(): (s: ImageSize)
      reads this
      ensures s == imageSize
      ensures Valid() ==> s.x >= 1 && s.y >= 1
    {
      imageSize
    }

    /** getPixelData: the buffer the last render filled. */
    function GetPixelData(): (d: seq<DataPixels>)
      reads this
      ensures d == data
    {
      data
    }

    /** getRay(i, j) with the draws of its sampleSquare call passed in as u:
        the ray from the centre through pixel (i, j) moved by the offset. */
    function GetRay(i: nat, j: nat, u: (real, real)): (r: Ray)
      reads this
      ensures r.origin == center
      ensures var offset := SampleSquare(u);
              Add(center, r.direction) ==
              Add(Add(grid.pixel00, Scale(i as real + offset.x, grid.du)), Scale(j as real + offset.y, grid.dv))
    {
      PixelRay(grid, center, i, j, SampleSquare(u))
    }

    /** The sample loop of render for pixel (i, j): the sum of the colours
        of perPixelSamples rays, sample s jittered by uniform(i, j, s). */
    method SamplePixel(world: seq<Sphere>, uniform: (nat, nat, nat) -> (real, real), m: Primitives,
                       i: nat, j: nat) returns (pixelColor: Vec3)
      ensures pixelColor == SampleSum(View(), world, uniform, m, i, j, SamplesTaken(perPixelSamples))
    {
      pixelColor := Zero;
      var sampleIdx := 0;
      while sampleIdx < perPixelSamples
        invariant 0 <= sampleIdx <= SamplesTaken(perPixelSamples)
        invariant pixelColor == SampleSum(View(), world, uniform, m, i, j, sampleIdx)
      {
        var r := GetRay(i, j, uniform(i, j, sampleIdx));
        pixelColor := Add(pixelColor, CameraRayColor(r, world, m));
        sampleIdx := sampleIdx + 1;
      }
      assert sampleIdx == SamplesTaken(perPixelSamples);
    }

    /** render(world): rebuilds data row by row, each pixel the average of
        perPixelSamples jittered samples; uniform(i, j, s) are the draws of
        sample s of pixel (i, j). */
    method Render(world: HittableList, uniform: (nat, nat, nat) -> (real, real), m: Primitives)
      requires world.Valid()
      modifies this`data
      ensures data == Image(View(), imageSize.x, imageSize.y, world.Children(), uniform, m)
    {
      ghost var v := View();
      var kids := world.Children();
      ghost var f := PixelFn(v, kids, uniform, m);
      data := [];
      var j := 0;
      while j < imageSize.y
        invariant 0 <= j <= imageSize.y
        invariant data == RowMajor(imageSize.x, j, f)
      {
        var i := 0;
        while i < imageSize.x
          invariant 0 <= i <= imageSize.x
          invariant data == RowMajor(imageSize.x, j, f) + Row(imageSize.x, j, f)[..i]
        {
          var pixelColor := SamplePixel(kids, uniform, m, i, j);
          assert f(i, j) == ConvertColor(Scale(pixelSampleScale, pixelColor));
          data := data + [ConvertColor(Scale(pixelSampleScale, pixelColor))];
          RowPrefixStep(imageSize.x, j, f, i);
          i := i + 1;
        }
        assert Row(imageSize.x, j, f)[..imageSize.x] == Row(imageSize.x, j, f);
        j := j + 1;
      }
    }
  }

  /** For a constructed camera, a pixel of the image and draws in [0, 1),
      the ray getRay returns passes through the viewport. */
  lemma GetRayOnViewport(c: Camera, i: nat, j: nat, u: (real, real))
    requires c.Valid()
    requires i < c.imageSize.x && j < c.imageSize.y
    requires 0.0 <= u.0 < 1.0 && 0.0 <= u.1 < 1.0
    ensures var d := c.GetRay(i, j, u).direction;
            var vw := ViewportWidth(c.imageSize.x as real, c.imageSize.y as real);
            -vw / 2.0 <= d.x < vw / 2.0 && -1.0 < d.y <= 1.0 && d.z == -1.0
  {
    SampleOnViewport(c.center, c.imageSize.x as real, c.imageSize.y as real, i, j, SampleSquare(u));
  }

  /** A 400-pixel-wide 16:9 camera renders 225 rows, and the un-jittered ray
      through pixel (200, 112) meets a sphere of radius 0.5 one unit in front
      of the camera, so that pixel is shaded and not sky. */
  lemma CentrePixelSeesSphere(mat: Material, ground: Sphere, m: Primitives)
    requires m.SqrtLaw()
    ensures ImageHeight(400, 16.0 / 9.0) == 225
    ensures var r := PixelRay(ViewportGrid(Zero, 400.0, 225.0), Zero, 200, 112, Zero);
            ListHit([Sphere(Vec3(0.0, 0.0, -1.0), 0.5, mat), ground], r, Visible, m).Some?
  {
    assert (400 as real) / (16.0 / 9.0) == 225.0;
    var r := PixelRay(ViewportGrid(Zero, 400.0, 225.0), Zero, 200, 112, Zero);
    PixelDirection(Zero, 400.0, 225.0, 200, 112, Zero);
    assert r.direction == Vec3(1.0 / 225.0, 0.0, -1.0);
    var s := Sphere(Vec3(0.0, 0.0, -1.0), 0.5, mat);
    HitWhenInFront(s, r, m);
    var world := [s, ground];
    ListHitSomeIff(world, r, Visible, m);
    assert HitOf(world[0], r, Visible, m).Some?;
  }
}
