/** The viewport and pixel grid that Camera's constructor and main in
    Source.cpp both derive from the image size, and the ray through a pixel. */
module Viewport {
  import opened Vectors
  import opened Rays
  import Numerics

  /** Distance between the camera centre and the viewport. */
  const FocalLength: real := 1.0
  /** viewport.y */
  const ViewportHeight: real := 2.0

  /** pixel00_loc, pixelDelta_u and pixelDelta_v. */
  datatype Grid = Grid(pixel00: Vec3, du: Vec3, dv: Vec3)

  /** viewport.x = viewport.y * (width / height) */
  function ViewportWidth(w: real, h: real): real
    requires h > 0.0
  {
    ViewportHeight * (w / h)
  }

  /** The grid of a w x h image seen from center, component by component:
      du = viewportU / w, dv = viewportV / h, and pixel (0, 0) half a pixel
      in from the viewport's upper-left corner (GridFromViewport gives the
      same grid as the constructor's vector statements). */
  function ViewportGrid(center: Vec3, w: real, h: real): Grid
    requires w > 0.0 && h > 0.0
  {
    var vw := ViewportWidth(w, h);
    var du := Vec3(vw / w, 0.0, 0.0);
    var dv := Vec3(0.0, -ViewportHeight / h, 0.0);
    var upperLeft := Vec3(center.x - vw / 2.0, center.y + ViewportHeight / 2.0, center.z - FocalLength);
    Grid(Add(upperLeft, Scale(0.5, Add(du, dv))), du, dv)
  }

  /** The grid is what Camera's constructor computes with vectors: the
      viewport edges u = (vw, 0, 0) and v = (0, -2, 0), the deltas u / w and
      v / h, the upper-left corner center - (0, 0, 1) - u / 2 - v / 2, and
      pixel (0, 0) half a delta in from it. */
  lemma GridFromViewport(center: Vec3, w: real, h: real)
    requires w > 0.0 && h > 0.0
    ensures var viewportU := Vec3(ViewportWidth(w, h), 0.0, 0.0);
            var viewportV := Vec3(0.0, -ViewportHeight, 0.0);
            var du := Div(viewportU, w);
            var dv := Div(viewportV, h);
            var upperLeft := Sub(Sub(Sub(center, Vec3(0.0, 0.0, FocalLength)), Div(viewportU, 2.0)), Div(viewportV, 2.0));
            ViewportGrid(center, w, h) == Grid(Add(upperLeft, Scale(0.5, Add(du, dv))), du, dv)
  {
    var viewportU := Vec3(ViewportWidth(w, h), 0.0, 0.0);
    var viewportV := Vec3(0.0, -ViewportHeight, 0.0);
    assert Div(viewportU, w) == Vec3(ViewportWidth(w, h) / w, 0.0, 0.0);
    assert Div(viewportV, h) == Vec3(0.0, -ViewportHeight / h, 0.0);
  }

  /** The ray from center through pixel (i, j) moved by offset (in pixels). */
  function PixelRay(g: Grid, center: Vec3, i: int, j: int, offset: Vec3): Ray {
    var pixelCenter := Add(Add(g.pixel00, Scale(i as real + offset.x, g.du)), Scale(j as real + offset.y, g.dv));
    Ray(center, Sub(pixelCenter, center))
  }

  /** In viewport coordinates the sample through (i, j) lies at
      ((i + ox + 1/2) / w, (j + oy + 1/2) / h) of the way across and down a
      viewport of width ViewportWidth and height 2, one unit in front. */
  lemma PixelDirection(center: Vec3, w: real, h: real, i: int, j: int, offset: Vec3)
    requires w > 0.0 && h > 0.0
    ensures var d := PixelRay(ViewportGrid(center, w, h), center, i, j, offset).direction;
            var vw := ViewportWidth(w, h);
            d == Vec3(vw * ((i as real + offset.x + 0.5) / w) - vw / 2.0,
                      1.0 - 2.0 * ((j as real + offset.y + 0.5) / h),
                      -1.0)
  {
    var vw := ViewportWidth(w, h);
    var g := ViewportGrid(center, w, h);
    assert g.du == Vec3(vw / w, 0.0, 0.0);
    assert g.dv == Vec3(0.0, -2.0 / h, 0.0);
    var u := i as real + offset.x;
    var v := j as real + offset.y;
    assert g.pixel00.x == center.x - vw / 2.0 + 0.5 * (vw / w);
    assert g.pixel00.y == center.y + 1.0 - 0.5 * (2.0 / h);
    assert u * (vw / w) + 0.5 * (vw / w) == vw * ((u + 0.5) / w);
    assert v * (2.0 / h) + 0.5 * (2.0 / h) == 2.0 * ((v + 0.5) / h);
  }

  /** The fraction of the way across a row of n pixels at which a jittered
      sample of pixel k lands. */
  lemma SampleFraction(k: int, o: real, n: real)
    requires 0 <= k && (k + 1) as real <= n
    requires -0.5 <= o < 0.5
    ensures 0.0 <= (k as real + o + 0.5) / n < 1.0
  {
    var q := k as real + o + 0.5;
    assert 0.0 <= q < n;
    assert q / n < n / n;
  }

  /** A direction f of the way across a viewport of width vw and g of the
      way down one of height 2 lies on that viewport. */
  lemma SpanBound(d: Vec3, vw: real, f: real, g: real)
    requires vw > 0.0 && 0.0 <= f < 1.0 && 0.0 <= g < 1.0
    requires d == Vec3(vw * f - vw / 2.0, 1.0 - 2.0 * g, -1.0)
    ensures -vw / 2.0 <= d.x < vw / 2.0 && -1.0 < d.y <= 1.0 && d.z == -1.0
  {
    Numerics.MulMonotone(vw, 0.0, f);
    assert vw * 1.0 - vw * f == vw * (1.0 - f);
    assert vw * (1.0 - f) > 0.0;
  }

  /** Every jittered sample of a pixel of the image lies on the viewport:
      x in [-width/2, width/2), y in (-1, 1], one unit in front of center. */
  lemma SampleOnViewport(center: Vec3, w: real, h: real, i: int, j: int, offset: Vec3)
    requires w > 0.0 && h > 0.0
    requires 0 <= i && (i + 1) as real <= w && 0 <= j && (j + 1) as real <= h
    requires -0.5 <= offset.x < 0.5 && -0.5 <= offset.y < 0.5
    ensures var d := PixelRay(ViewportGrid(center, w, h), center, i, j, offset).direction;
            var vw := ViewportWidth(w, h);
            -vw / 2.0 <= d.x < vw / 2.0 && -1.0 < d.y <= 1.0 && d.z == -1.0
  {
    var vw := ViewportWidth(w, h);
    var fx := (i as real + offset.x + 0.5) / w;
    var fy := (j as real + offset.y + 0.5) / h;
    PixelDirection(center, w, h, i, j, offset);
    SampleFraction(i, offset.x, w);
    SampleFraction(j, offset.y, h);
    assert vw > 0.0 by { assert w / h > 0.0; }
    SpanBound(PixelRay(ViewportGrid(center, w, h), center, i, j, offset).direction, vw, fx, fy);
  }
}
