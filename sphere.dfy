/** Sphere: the one primitive of the scene, and its ray intersection. */
module Spheres {
  import opened Options
  import opened Vectors
  import opened Numerics
  import opened ExtReals
  import opened Intervals
  import opened Rays
  import opened Materials
  import opened Hittable

  datatype Sphere = Sphere(center: Vec3, radius: real, mat: Material)

  /** Sphere(center, radius, mat): a negative radius is stored as 0. */
  function NewSphere(center: Vec3, radius: real, mat: Material): (s: Sphere)
    ensures s.center == center && s.mat == mat
    ensures s.radius >= 0.0
    ensures radius < 0.0 ==> s.radius == 0.0
    ensures radius >= 0.0 ==> s.radius == radius
  {
    Sphere(center, if radius < 0.0 then 0.0 else radius, mat)
  }

  // The points At(t) on the sphere are the roots of a t^2 - 2 h t + c = 0.

  function QuadA(r: Ray): real {
    Dot(r.direction, r.direction)
  }

  function QuadH(s: Sphere, r: Ray): real {
    Dot(r.direction, Sub(s.center, r.origin))
  }

  function QuadC(s: Sphere, r: Ray): real {
    var oc := Sub(s.center, r.origin);
    Dot(oc, oc) - s.radius * s.radius
  }

  function Discriminant(s: Sphere, r: Ray): real {
    QuadH(s, r) * QuadH(s, r) - QuadA(r) * QuadC(s, r)
  }

  /** (h - sqrt(delta)) / a, the root tried first. */
  function NearRoot(s: Sphere, r: Ray, m: Primitives): real
    requires QuadA(r) != 0.0
  {
    (QuadH(s, r) - m.sqrt(Discriminant(s, r))) / QuadA(r)
  }

  /** (h + sqrt(delta)) / a, the root tried second. */
  function FarRoot(s: Sphere, r: Ray, m: Primitives): real
    requires QuadA(r) != 0.0
  {
    (QuadH(s, r) + m.sqrt(Discriminant(s, r))) / QuadA(r)
  }

  /** (p - center) / radius. For a zero radius the source divides by zero
      (a NaN vector); the model uses the zero vector there. */
  function OutwardNormal(s: Sphere, p: Vec3): Vec3 {
    if s.radius == 0.0 then Zero else Div(Sub(p, s.center), s.radius)
  }

  /** The record Sphere::hit writes for the accepted root t. */
  function RecordAt(s: Sphere, r: Ray, t: real): HitRecord {
    var p := r.At(t);
    WithFaceNormal(HitRecord(p, Zero, s.mat, t, false), r, OutwardNormal(s, p))
  }

  /** The root Sphere::hit accepts: the nearer one when it lies strictly
      inside rayT, else the farther one when that does, else none. */
  function AcceptedRoot(s: Sphere, r: Ray, rayT: Interval, m: Primitives): (t: Option<real>)
    ensures Discriminant(s, r) < 0.0 ==> t.None?
    ensures t.Some? ==> rayT.Surrounds(Fin(t.value))
  {
    if Discriminant(s, r) < 0.0 then None
    // a == 0 only for a zero direction; then h == delta == 0 and both
    // roots are 0/0, a NaN that surrounds rejects.
    else if QuadA(r) == 0.0 then None
    else if rayT.Surrounds(Fin(NearRoot(s, r, m))) then Some(NearRoot(s, r, m))
    else if rayT.Surrounds(Fin(FarRoot(s, r, m))) then Some(FarRoot(s, r, m))
    else None
  }

  /** What Sphere::hit reports: None for `false`, Some(record) for `true`. */
  function HitOf(s: Sphere, r: Ray, rayT: Interval, m: Primitives): (res: Option<HitRecord>)
  {
    match AcceptedRoot(s, r, rayT, m)
    case None => None
    case Some(t) => Some(RecordAt(s, r, t))
  }

  /** Sphere::hit: writes data only when it returns true. */
  method Hit(s: Sphere, r: Ray, rayT: Interval, data: HitData, m: Primitives) returns (ok: bool)
    modifies data
    ensures ok == HitOf(s, r, rayT, m).Some?
    ensures ok ==> data.Value() == HitOf(s, r, rayT, m).value
    ensures !ok ==> data.Value() == old(data.Value())
  {
    var oc := Sub(s.center, r.origin);
    var a := Dot(r.direction, r.direction);
    var h := Dot(r.direction, oc);
    var c := Dot(oc, oc) - s.radius * s.radius;
    var delta := h * h - a * c;
    assert a == QuadA(r) && h == QuadH(s, r) && c == QuadC(s, r) && delta == Discriminant(s, r);
    if delta < 0.0 {
      return false;
    }
    if a == 0.0 {
      return false;
    }
    var deltaSqr := m.sqrt(delta);
    var root := (h - deltaSqr) / a;
    assert root == NearRoot(s, r, m);
    if !rayT.Surrounds(Fin(root)) {
      root := (h + deltaSqr) / a;
      assert root == FarRoot(s, r, m);
      if !rayT.Surrounds(Fin(root)) {
        return false;
      }
    }
    data.t := root;
    data.p := r.At(root);
    data.mat := s.mat;
    var outwardNormal := OutwardNormal(s, data.p);
    ghost var before := data.Value();
    assert before == HitRecord(r.At(root), Zero, s.mat, root, false).(normal := before.normal, frontFace := before.frontFace);
    data.SetFaceNormal(r, outwardNormal);
    FaceNormalOverwrites(HitRecord(r.At(root), Zero, s.mat, root, false), r, outwardNormal, before.normal, before.frontFace);
    assert data.Value() == RecordAt(s, r, root);
    return true;
  }

  /** Sphere::hit misses on a negative discriminant; a reported record lies
      strictly inside rayT, at r.At(t), carries the sphere's material, and
      its normal opposes the ray. */
  lemma HitOfSound(s: Sphere, r: Ray, rayT: Interval, m: Primitives)
    ensures Discriminant(s, r) < 0.0 ==> HitOf(s, r, rayT, m).None?
    ensures HitOf(s, r, rayT, m).Some? ==>
              var rec := HitOf(s, r, rayT, m).value;
              && rayT.Surrounds(Fin(rec.t))
              && rec.p == r.At(rec.t) && rec.mat == s.mat
              && Dot(r.direction, rec.normal) <= 0.0
  {
  }

  /** The nearer root is used whenever it lies strictly inside rayT; the
      farther one is tried only otherwise. */
  lemma HitPrefersNearRoot(s: Sphere, r: Ray, rayT: Interval, m: Primitives)
    requires Discriminant(s, r) >= 0.0 && QuadA(r) != 0.0
    ensures rayT.Surrounds(Fin(NearRoot(s, r, m))) ==>
              HitOf(s, r, rayT, m) == Some(RecordAt(s, r, NearRoot(s, r, m)))
    ensures !rayT.Surrounds(Fin(NearRoot(s, r, m))) ==>
              HitOf(s, r, rayT, m) ==
                if rayT.Surrounds(Fin(FarRoot(s, r, m))) then Some(RecordAt(s, r, FarRoot(s, r, m))) else None
  {
  }

  /** Both candidate roots solve the quadratic once sqrt is a square root. */
  lemma QuadraticRoot(a: real, h: real, c: real, q: real, t: real)
    requires a != 0.0
    requires q * q == h * h - a * c
    requires t == (h - q) / a || t == (h + q) / a
    ensures a * t * t - 2.0 * h * t + c == 0.0
  {
    var e := h - a * t;
    assert e == q || e == -q by {
      assert a * t == h - q || a * t == h + q;
    }
    assert e * e == q * q;
    // a (a t^2 - 2 h t + c) == (a t - h)^2 - (h^2 - a c) == e^2 - q^2 == 0
    assert a * (a * t * t - 2.0 * h * t + c) == e * e - (h * h - a * c);
    ProductZero(a, a * t * t - 2.0 * h * t + c);
  }

  lemma ProductZero(a: real, b: real)
    requires a != 0.0 && a * b == 0.0
    ensures b == 0.0
  {
    assert b == (a * b) / a;
  }

  /** Sphere::hit returns true exactly when it accepts a root, and then
      reports the record of that root. */
  lemma HitOfAccepted(s: Sphere, r: Ray, rayT: Interval, m: Primitives)
    ensures HitOf(s, r, rayT, m).Some? <==> AcceptedRoot(s, r, rayT, m).Some?
    ensures HitOf(s, r, rayT, m).Some? ==>
              HitOf(s, r, rayT, m).value == RecordAt(s, r, AcceptedRoot(s, r, rayT, m).value) &&
              HitOf(s, r, rayT, m).value.t == AcceptedRoot(s, r, rayT, m).value
  {
  }

  /** An accepted root is one of the two roots of a quadratic with a
      non-negative discriminant and a != 0. */
  lemma AcceptedIsRoot(s: Sphere, r: Ray, rayT: Interval, m: Primitives)
    requires AcceptedRoot(s, r, rayT, m).Some?
    ensures Discriminant(s, r) >= 0.0 && QuadA(r) != 0.0
    ensures AcceptedRoot(s, r, rayT, m).value == NearRoot(s, r, m) ||
            AcceptedRoot(s, r, rayT, m).value == FarRoot(s, r, m)
  {
  }

  /** Both roots solve a t^2 - 2 h t + c = 0. */
  lemma RootSolves(s: Sphere, r: Ray, m: Primitives, t: real)
    requires m.SqrtLaw()
    requires Discriminant(s, r) >= 0.0 && QuadA(r) != 0.0
    requires t == NearRoot(s, r, m) || t == FarRoot(s, r, m)
    ensures QuadA(r) * t * t - 2.0 * QuadH(s, r) * t + QuadC(s, r) == 0.0
  {
    var q := m.sqrt(Discriminant(s, r));
    assert q * q == Discriminant(s, r);
    QuadraticRoot(QuadA(r), QuadH(s, r), QuadC(s, r), q, t);
  }

  /** When a > 0, the t Sphere::hit reports is a root of
      a t^2 - 2 h t + c = 0. */
  lemma HitIsRoot(s: Sphere, r: Ray, rayT: Interval, m: Primitives)
    requires m.SqrtLaw()
    requires AcceptedRoot(s, r, rayT, m).Some?
    ensures var t := AcceptedRoot(s, r, rayT, m).value;
            QuadA(r) * t * t - 2.0 * QuadH(s, r) * t + QuadC(s, r) == 0.0
  {
    AcceptedIsRoot(s, r, rayT, m);
    RootSolves(s, r, m, AcceptedRoot(s, r, rayT, m).value);
  }

  /** |At(t) - center|^2 expands into the quadratic's terms. */
  lemma DistanceExpansion(s: Sphere, r: Ray, t: real)
    ensures var v := Sub(r.At(t), s.center);
            Dot(v, v) == QuadA(r) * t * t - 2.0 * QuadH(s, r) * t + QuadC(s, r) + s.radius * s.radius
  {
    var d := r.direction;
    var oc := Sub(s.center, r.origin);
    var v := Sub(r.At(t), s.center);
    assert v == Vec3(t * d.x - oc.x, t * d.y - oc.y, t * d.z - oc.z);
    SquareExpansion(t, d.x, oc.x);
    SquareExpansion(t, d.y, oc.y);
    SquareExpansion(t, d.z, oc.z);
    CollectTerms(d.x * d.x, d.y * d.y, d.z * d.z, d.x * oc.x, d.y * oc.y, d.z * oc.z,
                 oc.x * oc.x, oc.y * oc.y, oc.z * oc.z, t);
  }

  lemma SquareExpansion(t: real, d: real, o: real)
    ensures (t * d - o) * (t * d - o) == d * d * t * t - 2.0 * (d * o) * t + o * o
  {
  }

  /** Three quadratics in t add up coefficient by coefficient. */
  lemma CollectTerms(a1: real, a2: real, a3: real, b1: real, b2: real, b3: real,
                     c1: real, c2: real, c3: real, t: real)
    ensures (a1 * t * t - 2.0 * b1 * t + c1) + (a2 * t * t - 2.0 * b2 * t + c2) + (a3 * t * t - 2.0 * b3 * t + c3)
         == (a1 + a2 + a3) * t * t - 2.0 * (b1 + b2 + b3) * t + (c1 + c2 + c3)
  {
  }

  lemma UnitAfterDivision(v: Vec3, k: real)
    requires k != 0.0 && Dot(v, v) == k * k
    ensures Dot(Div(v, k), Div(v, k)) == 1.0
  {
    var u := Div(v, k);
    var kk := k * k;
    assert kk != 0.0 by {
      if kk == 0.0 { ProductZero(k, k); }
    }
    ScaledSquare(u.x, k, v.x);
    ScaledSquare(u.y, k, v.y);
    ScaledSquare(u.z, k, v.z);
    var dd := Dot(u, u);
    assert dd * kk == Dot(v, v);
    assert kk * (dd - 1.0) == 0.0;
    ProductZero(kk, dd - 1.0);
  }

  lemma ScaledSquare(a: real, k: real, b: real)
    requires a * k == b
    ensures a * a * (k * k) == b * b
  {
    assert a * a * (k * k) == (a * k) * (a * k);
  }

  /** The record of a root of the quadratic lies on the sphere, and for a
      positive radius its normal has unit length. */
  lemma RootOnSurface(s: Sphere, r: Ray, t: real)
    requires s.radius > 0.0
    requires QuadA(r) * t * t - 2.0 * QuadH(s, r) * t + QuadC(s, r) == 0.0
    ensures var rec := RecordAt(s, r, t);
            Dot(Sub(rec.p, s.center), Sub(rec.p, s.center)) == s.radius * s.radius &&
            Dot(rec.normal, rec.normal) == 1.0
  {
    var rec := RecordAt(s, r, t);
    DistanceExpansion(s, r, t);
    var v := Sub(rec.p, s.center);
    UnitAfterDivision(v, s.radius);
    var n := Div(v, s.radius);
    assert Dot(Neg(n), Neg(n)) == Dot(n, n);
    assert rec.normal == n || rec.normal == Neg(n);
  }

  /** A reported hit lies on the sphere, so for a positive radius its
      normal has unit length. */
  lemma HitOnSurface(s: Sphere, r: Ray, rayT: Interval, m: Primitives)
    requires m.SqrtLaw()
    requires s.radius > 0.0
    requires HitOf(s, r, rayT, m).Some?
    ensures var rec := HitOf(s, r, rayT, m).value;
            Dot(Sub(rec.p, s.center), Sub(rec.p, s.center)) == s.radius * s.radius &&
            Dot(rec.normal, rec.normal) == 1.0
  {
    HitOfAccepted(s, r, rayT, m);
    var t := AcceptedRoot(s, r, rayT, m).value;
    HitIsRoot(s, r, rayT, m);
    RootOnSurface(s, r, t);
  }

  lemma DivMonotone(x: real, y: real, a: real)
    requires a > 0.0 && x <= y
    ensures x / a <= y / a
  {
    assert y / a - x / a == (y - x) / a;
  }

  /** The nearer root is never beyond the farther one. */
  lemma RootsOrdered(s: Sphere, r: Ray, m: Primitives)
    requires m.SqrtLaw()
    requires Discriminant(s, r) >= 0.0 && QuadA(r) != 0.0
    ensures NearRoot(s, r, m) <= FarRoot(s, r, m)
  {
    DotSelfNonNegative(r.direction);
    var q := m.sqrt(Discriminant(s, r));
    assert q >= 0.0;
    DivMonotone(QuadH(s, r) - q, QuadH(s, r) + q, QuadA(r));
  }

  /** Lowering the far bound of rayT to b keeps a hit exactly when its t is
      below b, and never creates one. HittableList::hit relies on this. */
  lemma NarrowedHit(s: Sphere, r: Ray, rayT: Interval, b: ExtReal, m: Primitives)
    requires m.SqrtLaw()
    requires Le(b, rayT.max)
    ensures HitOf(s, r, Interval(rayT.min, b), m) ==
              match HitOf(s, r, rayT, m)
              case None => None
              case Some(rec) => if Lt(Fin(rec.t), b) then Some(rec) else None
  {
    if Discriminant(s, r) >= 0.0 && QuadA(r) != 0.0 {
      RootsOrdered(s, r, m);
    }
  }

  lemma SquareMonotone(x: real, y: real)
    requires 0.0 <= x <= y
    ensures x * x <= y * y
  {
    MulMonotone(x, x, y);
    MulMonotone(y, x, y);
  }

  /** With a, c, h > 0 the smaller root (h - q) / a of a t^2 - 2 h t + c is positive. */
  lemma NearRootPositive(a: real, h: real, c: real, q: real)
    requires a > 0.0 && c > 0.0 && h > 0.0 && q >= 0.0
    requires q * q == h * h - a * c
    ensures (h - q) / a > 0.0
  {
    assert a * c > 0.0;
    assert q < h by {
      if q >= h {
        SquareMonotone(h, q);
      }
    }
  }

  /** A ray starting outside a sphere whose centre lies ahead of it, with a
      non-negative discriminant, hits it at the nearer root in (0, inf). */
  lemma HitWhenInFront(s: Sphere, r: Ray, m: Primitives)
    requires m.SqrtLaw()
    requires QuadA(r) != 0.0
    requires QuadC(s, r) > 0.0 && QuadH(s, r) > 0.0 && Discriminant(s, r) >= 0.0
    ensures HitOf(s, r, Interval(Fin(0.0), PosInf), m) == Some(RecordAt(s, r, NearRoot(s, r, m)))
  {
    DotSelfNonNegative(r.direction);
    var a, h, c := QuadA(r), QuadH(s, r), QuadC(s, r);
    var q := m.sqrt(Discriminant(s, r));
    assert q >= 0.0 && q * q == Discriminant(s, r);
    assert Discriminant(s, r) == h * h - a * c;
    NearRootPositive(a, h, c, q);
    assert NearRoot(s, r, m) == (h - q) / a;
    HitPrefersNearRoot(s, r, Interval(Fin(0.0), PosInf), m);
  }
}
