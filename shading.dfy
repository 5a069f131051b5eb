/** Ray::color: normal shading on a hit and the sky gradient on a miss. */
module Shading {
  import opened Vectors
  import opened Numerics
  import opened ExtReals
  import opened Intervals
  import opened Rays
  import opened Spheres
  import opened HittableLists
  import Utils

  /** Interval(0, Utils::infinity), the range both colour functions query. */
  const Visible: Interval := Interval(Fin(0.0), Utils.Infinity)

  /** The blue end of the gradient, (0.5, 0.7, 1.0). */
  const SkyBlue: Vec3 := Vec3(0.5, 0.7, 1.0)

  /** a = 0.5 (y + 1) of the normalised direction. */
  function SkyBlend(direction: Vec3, m: Primitives): real {
    0.5 * (m.normalize(direction).y + 1.0)
  }

  /** (1 - a) white + a (0.5, 0.7, 1.0). */
  function Sky(direction: Vec3, m: Primitives): (c: Vec3)
    ensures c.z == 1.0
  {
    var a := SkyBlend(direction, m);
    Add(Scale(1.0 - a, One), Scale(a, SkyBlue))
  }

  /** 0.5 (normal + (1, 1, 1)) */
  function NormalShade(normal: Vec3): Vec3 {
    Scale(0.5, Add(normal, One))
  }

  function Color(r: Ray, world: seq<Sphere>, m: Primitives): (c: Vec4)
    ensures c.a == 1.0
    ensures var hit := ListHit(world, r, Visible, m);
            Rgb(c) == if hit.Some? then NormalShade(hit.value.normal) else Sky(r.direction, m)
  {
    var hit := ListHit(world, r, Visible, m);
    if hit.Some? then WithAlpha(NormalShade(hit.value.normal), 1.0)
    else WithAlpha(Sky(r.direction, m), 1.0)
  }

  /** A normal with components in [-1, 1] shades to a colour in [0, 1]. */
  lemma NormalShadeInUnitCube(normal: Vec3)
    requires InBox(normal, -1.0, 1.0)
    ensures InBox(NormalShade(normal), 0.0, 1.0)
  {
  }

  /** For a non-zero direction the blend factor lies in [0, 1], so does every
      channel of the sky, and blue is exactly 1. */
  lemma SkyInUnitCube(direction: Vec3, m: Primitives)
    requires m.NormalizeLaw()
    requires direction != Zero
    ensures 0.0 <= SkyBlend(direction, m) <= 1.0
    ensures InBox(Sky(direction, m), 0.0, 1.0)
  {
    UnitInBox(m.normalize(direction));
  }

  /** An empty scene shows the sky everywhere. */
  lemma EmptySceneIsSky(r: Ray, m: Primitives)
    ensures Color(r, [], m) == WithAlpha(Sky(r.direction, m), 1.0)
  {
  }

  /** The record of a list hit is the own hit of one of the children. */
  lemma ListHitFromChild(world: seq<Sphere>, r: Ray, rayT: Interval, m: Primitives)
    requires m.SqrtLaw()
    ensures ListHit(world, r, rayT, m).Some? ==>
              exists k :: 0 <= k < |world| && HitOf(world[k], r, rayT, m) == ListHit(world, r, rayT, m)
  {
    ListHitNearest(world, r, rayT, m);
  }

  /** In a scene of spheres with positive radii, every colour channel lies in
      [0, 1] and alpha is 1. */
  lemma ColorInUnitCube(r: Ray, world: seq<Sphere>, m: Primitives)
    requires m.SqrtLaw() && m.NormalizeLaw()
    requires r.direction != Zero
    requires forall k :: 0 <= k < |world| ==> world[k].radius > 0.0
    ensures InBox(Rgb(Color(r, world, m)), 0.0, 1.0)
  {
    var hit := ListHit(world, r, Visible, m);
    if hit.Some? {
      ListHitFromChild(world, r, Visible, m);
      var k :| 0 <= k < |world| && HitOf(world[k], r, Visible, m) == hit;
      HitOnSurface(world[k], r, Visible, m);
      UnitInBox(hit.value.normal);
      NormalShadeInUnitCube(hit.value.normal);
    } else {
      SkyInUnitCube(r.direction, m);
    }
  }
}
