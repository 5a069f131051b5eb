/** The stand-alone pipeline in Source.cpp's main: the window size, the
    viewport, one un-jittered ray per pixel coloured by Ray::color, and its
    own convertColor of all four channels. */
module SourceMain {
  import opened Vectors
  import opened Spheres
  import opened HittableLists
  import opened Shading
  import opened Pixels
  import opened Viewport
  import opened Numerics

  /** One channel of convertColor: int(255.999 * c) narrowed to a byte. */
  function Channel(c: real): (b: Byte)
    ensures 0.0 <= c <= 1.0 ==> b == (255.999 * c).Floor
  {
    ToByte(Trunc(255.999 * c))
  }

  /** The ends of the unit range map to the ends of the byte range. */
  lemma ChannelEnds()
    ensures Channel(0.0) == 0 && Channel(1.0) == 255
  {
    assert (255.999 * 1.0).Floor == 255;
  }

  /** On the unit range a brighter channel never gives a smaller byte. */
  lemma ChannelMonotone(c: real, d: real)
    requires 0.0 <= c <= d <= 1.0
    ensures Channel(c) <= Channel(d)
  {
    MulMonotone(255.999, c, d);
  }

  /** convertColor: every channel, alpha included, quantised alike. */
  function ConvertColor(color: Vec4): (px: DataPixels)
    ensures px.r == Channel(color.r) && px.g == Channel(color.g)
    ensures px.b == Channel(color.b) && px.a == Channel(color.a)
  {
    DataPixels(Channel(color.r), Channel(color.g), Channel(color.b), Channel(color.a))
  }

  /** An input alpha of 1 is stored as 255. */
  lemma OpaqueAlpha(color: Vec4)
    requires color.a == 1.0
    ensures ConvertColor(color).a == 255
  {
    ChannelEnds();
  }

  /** windowSize.y: width / aspectRatio kept as a float, raised to 1 when
      it is below 1; it is the larger of the two. */
  function WindowHeight(width: real, aspectRatio: real): (h: real)
    requires aspectRatio > 0.0
    ensures h >= 1.0 && h >= width / aspectRatio
    ensures h == 1.0 || h == width / aspectRatio
  {
    var y := width / aspectRatio;
    if y < 1.0 then 1.0 else y
  }

  /** The number of values 0, 1, 2, ... of an int counter below the float
      bound x, which is how often `for (int j = 0; j < x; j++)` runs. */
  function Iterations(x: real): nat {
    if x <= 0.0 then 0 else if (x.Floor as real) == x then x.Floor else x.Floor + 1
  }

  /** k passes the loop test exactly when it is one of the first
      Iterations(x) counter values. */
  lemma IterationsCount(x: real, k: nat)
    ensures (k as real) < x <==> k < Iterations(x)
  {
  }

  /** On whole bounds the loop runs exactly that many times. */
  lemma IterationsOfWhole(n: nat)
    ensures Iterations(n as real) == n
  {
  }

  /** The 800-wide 16:9 window of main is 450 rows high and its loops run
      800 x 450 times. */
  lemma DefaultWindow()
    ensures WindowHeight(800.0, 16.0 / 9.0) == 450.0
    ensures Iterations(800.0) == 800 && Iterations(WindowHeight(800.0, 16.0 / 9.0)) == 450
  {
    assert 800.0 / (16.0 / 9.0) == 450.0;
    IterationsOfWhole(800);
    IterationsOfWhole(450);
  }

  /** The pixel the loop appends for (i, j): convertColor of Ray::color of
      the ray from the origin through the pixel's centre. */
  function WindowPixel(g: Grid, world: seq<Sphere>, m: Primitives, i: nat, j: nat): DataPixels {
    ConvertColor(Color(PixelRay(g, Zero, i, j, Zero), world, m))
  }

  function WindowPixelFn(g: Grid, world: seq<Sphere>, m: Primitives): (nat, nat) -> DataPixels {
    (i: nat, j: nat) => WindowPixel(g, world, m, i, j)
  }

  /** The nested pixel loop of main for a window of width windowWidth and
      the given aspect ratio, over the scene world; the viewport is that of
      a camera at the origin. */
  method TraceWindow(windowWidth: real, aspectRatio: real, world: HittableList, m: Primitives)
    returns (data: seq<DataPixels>)
    requires windowWidth > 0.0 && aspectRatio > 0.0
    requires world.Valid()
    ensures var h := WindowHeight(windowWidth, aspectRatio);
            data == RowMajor(Iterations(windowWidth), Iterations(h),
                             WindowPixelFn(ViewportGrid(Zero, windowWidth, h), world.Children(), m))
  {
    var windowHeight := WindowHeight(windowWidth, aspectRatio);
    var grid := ViewportGrid(Zero, windowWidth, windowHeight);
    var kids := world.Children();
    ghost var f := WindowPixelFn(grid, kids, m);
    ghost var w := Iterations(windowWidth);
    data := [];
    var j := 0;
    while (j as real) < windowHeight
      invariant 0 <= j <= Iterations(windowHeight)
      invariant data == RowMajor(w, j, f)
      decreases Iterations(windowHeight) - j
    {
      IterationsCount(windowHeight, j);
      var i := 0;
      while (i as real) < windowWidth
        invariant 0 <= i <= w
        invariant data == RowMajor(w, j, f) + Row(w, j, f)[..i]
        decreases w - i
      {
        IterationsCount(windowWidth, i);
        var r := PixelRay(grid, Zero, i, j, Zero);
        assert f(i, j) == ConvertColor(Color(r, kids, m));
        data := data + [ConvertColor(Color(r, kids, m))];
        RowPrefixStep(w, j, f, i);
        i := i + 1;
      }
      IterationsCount(windowWidth, i);
      assert i == w;
      assert Row(w, j, f)[..w] == Row(w, j, f);
      j := j + 1;
    }
    IterationsCount(windowHeight, j);
  }

  /** Every pixel of the window's image is opaque, since Ray::color always
      has alpha 1. */
  lemma WindowOpaque(w: nat, h: nat, g: Grid, world: seq<Sphere>, m: Primitives)
    ensures forall k :: 0 <= k < |RowMajor(w, h, WindowPixelFn(g, world, m))| ==>
                          RowMajor(w, h, WindowPixelFn(g, world, m))[k].a == 255
  {
    var f := WindowPixelFn(g, world, m);
    forall i: nat, j: nat | i < w && j < h
      ensures OpaquePixel(f(i, j))
    {
      OpaqueAlpha(Color(PixelRay(g, Zero, i, j, Zero), world, m));
    }
    RowMajorAll(w, h, f, OpaquePixel);
  }

  /** The window's image has w x h pixels and entry j * w + i is pixel
      (i, j). */
  lemma WindowPixelAt(w: nat, h: nat, g: Grid, world: seq<Sphere>, m: Primitives, i: nat, j: nat)
    requires i < w && j < h
    ensures |RowMajor(w, h, WindowPixelFn(g, world, m))| == w * h
    ensures j * w + i < w * h
    ensures RowMajor(w, h, WindowPixelFn(g, world, m))[j * w + i] == WindowPixel(g, world, m, i, j)
  {
    RowMajorIndex(w, h, WindowPixelFn(g, world, m), j, i);
  }

  /** Each ray of the loop starts at the camera centre and points at the
      centre of its pixel: pixel00 + i * du + j * dv. */
  lemma WindowRay(g: Grid, i: nat, j: nat)
    ensures PixelRay(g, Zero, i, j, Zero).origin == Zero
    ensures PixelRay(g, Zero, i, j, Zero).direction ==
            Add(Add(g.pixel00, Scale(i as real, g.du)), Scale(j as real, g.dv))
  {
  }
}
