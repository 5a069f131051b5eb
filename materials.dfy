/** The material variants a sphere can carry, their constructors and the
    Schlick reflectance used by Dielectric. The scatter operations, which
    need a hit record, are in module Scattering. */
module Materials {
  import opened Vectors
  import opened Numerics

  datatype Material =
    | Absorb                            // the base Material, whose scatter always declines
    | Lambertian(albedo: Vec3)
    | Metal(albedo: Vec3, fuzz: real)
    | Dielectric(refractionIndex: real)

  /** Metal(albedo, fuzz): fuzz is capped at 1. */
  function NewMetal(albedo: Vec3, fuzz: real): (mat: Material)
    ensures mat.Metal? && mat.albedo == albedo
    ensures mat.fuzz <= 1.0
    ensures fuzz >= 1.0 ==> mat.fuzz == 1.0
    ensures fuzz < 1.0 ==> mat.fuzz == fuzz
  {
    Metal(albedo, if fuzz < 1.0 then fuzz else 1.0)
  }

  /** The reflectance at normal incidence, ((1 - ri) / (1 + ri))^2. */
  function R0(ri: real): real
    requires ri != -1.0
  {
    var q := (1.0 - ri) / (1.0 + ri);
    q * q
  }

  /** Schlick's approximation r0 + (1 - r0) (1 - cos)^5. */
  function Reflectance(cos: real, ri: real): real
    requires ri != -1.0
  {
    var r0 := (1.0 - ri) / (1.0 + ri);
    var r0sq := r0 * r0;
    r0sq + (1.0 - r0sq) * Pow(1.0 - cos, 5)
  }

  lemma ReflectanceAtNormalIncidence(ri: real)
    requires ri != -1.0
    ensures Reflectance(1.0, ri) == R0(ri)
  {
    assert Pow(0.0, 5) == 0.0;
  }

  /** For a positive index ratio r0 lies in [0, 1). */
  lemma R0Bounds(ri: real)
    requires ri > 0.0
    ensures 0.0 <= R0(ri) < 1.0
  {
    var q := (1.0 - ri) / (1.0 + ri);
    assert -1.0 < q < 1.0 by {
      assert q * (1.0 + ri) == 1.0 - ri;
    }
    SquareBelowOne(q);
  }

  /** For a positive index ratio the reflectance lies between r0 and 1. */
  lemma ReflectanceBounds(cos: real, ri: real)
    requires ri > 0.0
    requires 0.0 <= cos <= 1.0
    ensures 0.0 <= R0(ri) < 1.0
    ensures R0(ri) <= Reflectance(cos, ri) <= 1.0
  {
    R0Bounds(ri);
    PowUnitInterval(1.0 - cos, 5);
    var p := Pow(1.0 - cos, 5);
    var r0 := R0(ri);
    assert Reflectance(cos, ri) == r0 + (1.0 - r0) * p;
    MulMonotone(1.0 - r0, 0.0, p);
    MulMonotone(1.0 - r0, p, 1.0);
  }

  lemma SquareBelowOne(q: real)
    requires -1.0 < q < 1.0
    ensures 0.0 <= q * q < 1.0
  {
    SquareNonNegative(q);
    if q >= 0.0 {
      assert q * q <= q * 1.0;
    } else {
      assert q * q == (-q) * (-q);
      assert (-q) * (-q) <= (-q) * 1.0;
    }
  }
}
