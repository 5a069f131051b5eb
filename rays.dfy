/** Ray: an origin and a direction (the accessors origin() and direction()
    are the datatype's destructors, so they return the constructor's
    arguments). */
module Rays {
  import opened Vectors

  datatype Ray = Ray(origin: Vec3, direction: Vec3) {
    /** The point at parameter t. */
    function At(t: real): Vec3 {
      Add(origin, Scale(t, direction))
    }
  }

  lemma AtZero(r: Ray)
    ensures r.At(0.0) == r.origin
  {
  }

  /** at is affine in t. */
  lemma AtAffine(r: Ray, s: real, t: real)
    ensures r.At(s + t) == Add(r.At(s), Scale(t, r.direction))
  {
  }
}
