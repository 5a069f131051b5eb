/** hitData, the record a successful intersection fills in, and its
    setFaceNormal. */
module Hittable {
  import opened Vectors
  import opened Rays
  import opened Materials

  /** The value held by a hitData object. */
  datatype HitRecord = HitRecord(p: Vec3, normal: Vec3, mat: Material, t: real, frontFace: bool)

  /** The record after setFaceNormal(ray, outwardNormal). */
  function WithFaceNormal(rec: HitRecord, ray: Ray, outwardNormal: Vec3): (r: HitRecord)
    ensures r.frontFace <==> Dot(ray.direction, outwardNormal) < 0.0
    ensures r.normal == if r.frontFace then outwardNormal else Neg(outwardNormal)
    ensures Dot(ray.direction, r.normal) <= 0.0
    ensures r.p == rec.p && r.t == rec.t && r.mat == rec.mat
  {
    var front := Dot(ray.direction, outwardNormal) < 0.0;
    rec.(frontFace := front, normal := if front then outwardNormal else Neg(outwardNormal))
  }

  /** The result does not depend on the normal and frontFace held before. */
  lemma FaceNormalOverwrites(rec: HitRecord, ray: Ray, outwardNormal: Vec3, n: Vec3, f: bool)
    ensures WithFaceNormal(rec.(normal := n, frontFace := f), ray, outwardNormal)
         == WithFaceNormal(rec, ray, outwardNormal)
  {
  }

  lemma FaceNormalIdempotent(rec: HitRecord, ray: Ray, outwardNormal: Vec3)
    ensures WithFaceNormal(WithFaceNormal(rec, ray, outwardNormal), ray, outwardNormal)
         == WithFaceNormal(rec, ray, outwardNormal)
  {
  }

  /** A hitData object: the fields are updated in place by Sphere::hit,
      by setFaceNormal and by the copy in HittableList::hit. */
  class HitData {
    var p: Vec3
    var normal: Vec3
    var mat: Material
    var t: real
    var frontFace: bool

    function Value(): HitRecord
      reads this
    {
      HitRecord(p, normal, mat, t, frontFace)
    }

    /** A default-constructed hitData (the C++ fields are left
        uninitialised; any starting value will do). */
    constructor ()
      ensures Value() == HitRecord(Zero, Zero, Absorb, 0.0, false)
    {
      p, normal, mat, t, frontFace := Zero, Zero, Absorb, 0.0, false;
    }

    method SetFaceNormal(ray: Ray, outwardNormal: Vec3)
      modifies this
      ensures Value() == WithFaceNormal(old(Value()), ray, outwardNormal)
    {
      frontFace := Dot(ray.direction, outwardNormal) < 0.0;
      normal := if frontFace then outwardNormal else Neg(outwardNormal);
    }

    /** The copy assignment `*this = src`. */
    method CopyFrom(src: HitData)
      modifies this
      ensures Value() == old(src.Value())
    {
      p, normal, mat, t, frontFace := src.p, src.normal, src.mat, src.t, src.frontFace;
    }
  }
}
