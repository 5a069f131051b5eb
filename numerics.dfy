/** The numeric helpers the tracer calls but whose bodies are not part of
    this model: std::sqrt, glm::normalize and the Utils::Vector helpers.
    They are passed in as a record of functions; the laws a caller may rely
    on are stated as predicates over that record. */
module Numerics {
  import opened Vectors

  datatype Primitives = Primitives(
    sqrt: real -> real,
    normalize: Vec3 -> Vec3,
    reflect: (Vec3, Vec3) -> Vec3,
    refract: (Vec3, Vec3, real) -> Vec3,
    nearZero: Vec3 -> bool)
  {
    /** sqrt returns the non-negative square root of a non-negative argument. */
    ghost predicate SqrtLaw() {
      forall x: real :: 0.0 <= x ==> 0.0 <= sqrt(x) && sqrt(x) * sqrt(x) == x
    }

    /** normalize returns a unit vector for every non-zero argument. */
    ghost predicate NormalizeLaw() {
      forall v: Vec3 :: v != Zero ==> Dot(normalize(v), normalize(v)) == 1.0
    }
  }

  /** std::pow for a natural exponent, which is exact. */
  function Pow(x: real, n: nat): real {
    if n == 0 then 1.0 else x * Pow(x, n - 1)
  }

  lemma MulMonotone(k: real, a: real, b: real)
    requires k >= 0.0 && a <= b
    ensures k * a <= k * b
  {
    assert k * b - k * a == k * (b - a);
  }

  lemma {:induction false} PowUnitInterval(x: real, n: nat)
    requires 0.0 <= x <= 1.0
    ensures 0.0 <= Pow(x, n) <= 1.0
  {
    if n > 0 {
      PowUnitInterval(x, n - 1);
      MulMonotone(Pow(x, n - 1), x, 1.0);
      MulMonotone(x, 0.0, Pow(x, n - 1));
    }
  }
}
