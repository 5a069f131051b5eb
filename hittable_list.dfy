/** HittableList: the scene, a list of spheres queried for the nearest hit. */
module HittableLists {
  import opened Options
  import opened Numerics
  import opened ExtReals
  import opened Intervals
  import opened Rays
  import opened Hittable
  import opened Spheres

  /** The far bound after a prefix of the children: the t of the best hit so
      far, or rayT's own max while nothing was hit. */
  function Bound(best: Option<HitRecord>, rayT: Interval): ExtReal {
    if best.Some? then Fin(best.value.t) else rayT.max
  }

  /** What HittableList::hit reports for the children objs, visited in index
      order, each queried with the far bound lowered to the best hit so far. */
  function ListHit(objs: seq<Sphere>, r: Ray, rayT: Interval, m: Primitives): (res: Option<HitRecord>)
    decreases |objs|
  {
    if objs == [] then None
    else
      var prev := ListHit(objs[..|objs| - 1], r, rayT, m);
      var cur := HitOf(objs[|objs| - 1], r, Interval(rayT.min, Bound(prev, rayT)), m);
      if cur.Some? then cur else prev
  }

  /** One more child: the fold over objs[..i + 1] from the fold over objs[..i]. */
  lemma ListHitStep(objs: seq<Sphere>, i: nat, r: Ray, rayT: Interval, m: Primitives)
    requires i < |objs|
    ensures var prev := ListHit(objs[..i], r, rayT, m);
            var cur := HitOf(objs[i], r, Interval(rayT.min, Bound(prev, rayT)), m);
            ListHit(objs[..i + 1], r, rayT, m) == if cur.Some? then cur else prev
  {
    assert objs[..i + 1][..i] == objs[..i];
  }

  /** A reported hit lies strictly inside rayT. */
  lemma {:induction false} ListHitWithin(objs: seq<Sphere>, r: Ray, rayT: Interval, m: Primitives)
    ensures var res := ListHit(objs, r, rayT, m);
            res.Some? ==> rayT.Surrounds(Fin(res.value.t))
  {
    if objs != [] {
      var prev := ListHit(objs[..|objs| - 1], r, rayT, m);
      ListHitWithin(objs[..|objs| - 1], r, rayT, m);
      assert Le(Bound(prev, rayT), rayT.max);
    }
  }

  /** closestHit never grows from one child to the next, and never exceeds rayT.max. */
  lemma BoundNonIncreasing(objs: seq<Sphere>, r: Ray, rayT: Interval, m: Primitives)
    requires objs != []
    ensures Le(Bound(ListHit(objs, r, rayT, m), rayT), Bound(ListHit(objs[..|objs| - 1], r, rayT, m), rayT))
    ensures Le(Bound(ListHit(objs, r, rayT, m), rayT), rayT.max)
  {
    ListHitWithin(objs, r, rayT, m);
  }

  /** A miss of the list is a miss of its last child and of the rest. */
  lemma MissStep(objs: seq<Sphere>, r: Ray, rayT: Interval, m: Primitives)
    requires objs != [] && ListHit(objs, r, rayT, m).None?
    ensures ListHit(objs[..|objs| - 1], r, rayT, m).None?
    ensures HitOf(objs[|objs| - 1], r, rayT, m).None?
  {
    assert Interval(rayT.min, rayT.max) == rayT;
  }

  /** The list misses only when every child misses within rayT. */
  lemma {:induction false} ListHitMisses(objs: seq<Sphere>, r: Ray, rayT: Interval, m: Primitives)
    ensures ListHit(objs, r, rayT, m).None? ==>
              forall k :: 0 <= k < |objs| ==> HitOf(objs[k], r, rayT, m).None?
  {
    if objs != [] && ListHit(objs, r, rayT, m).None? {
      var n := |objs| - 1;
      var pre := objs[..n];
      MissStep(objs, r, rayT, m);
      ListHitMisses(pre, r, rayT, m);
      forall k | 0 <= k < |objs|
        ensures HitOf(objs[k], r, rayT, m).None?
      {
        if k < n {
          assert objs[k] == pre[k];
        }
      }
    }
  }

  /** A reported hit is no farther than the own hit of any child. */
  lemma {:induction false} ListHitNoFarther(objs: seq<Sphere>, r: Ray, rayT: Interval, m: Primitives)
    requires m.SqrtLaw()
    ensures ListHit(objs, r, rayT, m).Some? ==>
              forall k :: 0 <= k < |objs| && HitOf(objs[k], r, rayT, m).Some? ==>
                ListHit(objs, r, rayT, m).value.t <= HitOf(objs[k], r, rayT, m).value.t
  {
    if objs != [] {
      var n := |objs| - 1;
      var pre := objs[..n];
      var prev := ListHit(pre, r, rayT, m);
      ListHitNoFarther(pre, r, rayT, m);
      ListHitMisses(pre, r, rayT, m);
      ListHitWithin(pre, r, rayT, m);
      NarrowedHit(objs[n], r, rayT, Bound(prev, rayT), m);
      var wide := HitOf(objs[n], r, rayT, m);
      var res := ListHit(objs, r, rayT, m);
      if res.Some? {
        forall k | 0 <= k < |objs| && HitOf(objs[k], r, rayT, m).Some?
          ensures res.value.t <= HitOf(objs[k], r, rayT, m).value.t
        {
          if k < n {
            assert objs[k] == pre[k];
          }
        }
      }
    }
  }

  /** A reported hit is the own hit of some child k, and every child before
      k that hits does so strictly farther away: the first child found at
      the nearest t wins ties. */
  lemma {:induction false} ListHitFirstNearest(objs: seq<Sphere>, r: Ray, rayT: Interval, m: Primitives)
    requires m.SqrtLaw()
    ensures ListHit(objs, r, rayT, m).Some? ==>
              var rec := ListHit(objs, r, rayT, m).value;
              exists k :: 0 <= k < |objs| && HitOf(objs[k], r, rayT, m) == Some(rec) &&
                forall j :: 0 <= j < k && HitOf(objs[j], r, rayT, m).Some? ==>
                  rec.t < HitOf(objs[j], r, rayT, m).value.t
  {
    if objs != [] {
      var n := |objs| - 1;
      var pre := objs[..n];
      var prev := ListHit(pre, r, rayT, m);
      ListHitFirstNearest(pre, r, rayT, m);
      ListHitNoFarther(pre, r, rayT, m);
      ListHitMisses(pre, r, rayT, m);
      ListHitWithin(pre, r, rayT, m);
      NarrowedHit(objs[n], r, rayT, Bound(prev, rayT), m);
      assert forall k :: 0 <= k < n ==> objs[k] == pre[k];
      var wide := HitOf(objs[n], r, rayT, m);
      var res := ListHit(objs, r, rayT, m);
      if res.Some? {
        if prev.None? || (wide.Some? && wide.value.t < prev.value.t) {
          assert HitOf(objs[n], r, rayT, m) == Some(res.value);
        } else {
          var k :| 0 <= k < n && HitOf(pre[k], r, rayT, m) == Some(prev.value) &&
                   forall j :: 0 <= j < k && HitOf(pre[j], r, rayT, m).Some? ==>
                     prev.value.t < HitOf(pre[j], r, rayT, m).value.t;
          assert HitOf(objs[k], r, rayT, m) == Some(res.value);
        }
      }
    }
  }

  /** The nearest-hit characterisation: the list misses exactly when every
      child misses within rayT; otherwise the result is the own hit (within
      rayT) of some child k, it is no farther than any child's hit, and every
      child before k that hits does so strictly farther away. */
  lemma ListHitNearest(objs: seq<Sphere>, r: Ray, rayT: Interval, m: Primitives)
    requires m.SqrtLaw()
    ensures ListHit(objs, r, rayT, m).None? ==>
              forall k :: 0 <= k < |objs| ==> HitOf(objs[k], r, rayT, m).None?
    ensures ListHit(objs, r, rayT, m).Some? ==>
              var rec := ListHit(objs, r, rayT, m).value;
              (forall k :: 0 <= k < |objs| && HitOf(objs[k], r, rayT, m).Some? ==>
                 rec.t <= HitOf(objs[k], r, rayT, m).value.t) &&
              (exists k :: 0 <= k < |objs| && HitOf(objs[k], r, rayT, m) == Some(rec) &&
                 forall j :: 0 <= j < k && HitOf(objs[j], r, rayT, m).Some? ==>
                   rec.t < HitOf(objs[j], r, rayT, m).value.t)
  {
    ListHitMisses(objs, r, rayT, m);
    ListHitNoFarther(objs, r, rayT, m);
    ListHitFirstNearest(objs, r, rayT, m);
  }

  /** The list reports a hit exactly when some child hits within the original rayT. */
  lemma ListHitSomeIff(objs: seq<Sphere>, r: Ray, rayT: Interval, m: Primitives)
    requires m.SqrtLaw()
    ensures ListHit(objs, r, rayT, m).Some? <==>
              exists k :: 0 <= k < |objs| && HitOf(objs[k], r, rayT, m).Some?
  {
    ListHitMisses(objs, r, rayT, m);
    ListHitFirstNearest(objs, r, rayT, m);
  }

  /** The scene object: objects[0..objectsSize) are its children. */
  class HittableList {
    var objects: array?<Sphere>
    var objectsSize: int

    /** hit may be called: the children it visits exist. */
    ghost predicate Valid()
      reads this
    {
      objectsSize <= 0 || (objects != null && objectsSize <= objects.Length)
    }

    function Children(): seq<Sphere>
      reads this, objects
      requires Valid()
    {
      if objectsSize <= 0 then [] else objects[..objectsSize]
    }

    /** HittableList(): no array and a size of 1, so hit may not be called. */
    constructor Empty()
      ensures objects == null && objectsSize == 1 && !Valid()
    {
      objects := null;
      objectsSize := 1;
    }

    constructor (o: array?<Sphere>, size: int)
      ensures objects == o && objectsSize == size
    {
      objects := o;
      objectsSize := size;
    }

    /** HittableList::hit */
    method Hit(r: Ray, rayT: Interval, data: HitData, m: Primitives) returns (hitAnything: bool)
      requires Valid()
      modifies data
      ensures hitAnything == ListHit(Children(), r, rayT, m).Some?
      ensures hitAnything ==> data.Value() == ListHit(Children(), r, rayT, m).value
      ensures !hitAnything ==> data.Value() == old(data.Value())
    {
      ghost var kids := Children();
      var tmpData := new HitData();
      hitAnything := false;
      var closestHit := rayT.max;
      var i := 0;
      while i < objectsSize
        invariant 0 <= i <= (if objectsSize <= 0 then 0 else objectsSize)
        invariant hitAnything == ListHit(kids[..i], r, rayT, m).Some?
        invariant closestHit == Bound(ListHit(kids[..i], r, rayT, m), rayT)
        invariant hitAnything ==> data.Value() == ListHit(kids[..i], r, rayT, m).value
        invariant !hitAnything ==> data.Value() == old(data.Value())
      {
        ListHitStep(kids, i, r, rayT, m);
        assert objects[i] == kids[i];
        var ok := Spheres.Hit(objects[i], r, Interval(rayT.min, closestHit), tmpData, m);
        if ok {
          hitAnything := true;
          closestHit := Fin(tmpData.t);
          data.CopyFrom(tmpData);
        }
        i := i + 1;
      }
      assert kids[..i] == kids;
    }
  }
}
