/** glm's 3- and 4-component vectors, with exact real components. */
module Vectors {
  /** A glm::vec3 / glm::dvec3. */
  datatype Vec3 = Vec3(x: real, y: real, z: real)

  /** A glm::vec4: colour channels r, g, b and alpha a. */
  datatype Vec4 = Vec4(r: real, g: real, b: real, a: real)

  const Zero: Vec3 := Vec3(0.0, 0.0, 0.0)
  const One: Vec3 := Vec3(1.0, 1.0, 1.0)

  function Add(u: Vec3, v: Vec3): Vec3 { Vec3(u.x + v.x, u.y + v.y, u.z + v.z) }
  function Sub(u: Vec3, v: Vec3): Vec3 { Vec3(u.x - v.x, u.y - v.y, u.z - v.z) }
  function Neg(v: Vec3): Vec3 { Vec3(-v.x, -v.y, -v.z) }
  function Scale(k: real, v: Vec3): Vec3 { Vec3(k * v.x, k * v.y, k * v.z) }
  function Div(v: Vec3, k: real): Vec3 requires k != 0.0 { Vec3(v.x / k, v.y / k, v.z / k) }
  function Dot(u: Vec3, v: Vec3): real { u.x * v.x + u.y * v.y + u.z * v.z }

  /** glm::vec4(v, a) */
  function WithAlpha(v: Vec3, a: real): Vec4 { Vec4(v.x, v.y, v.z, a) }
  /** The rgb part of a vec4 (glm's vec4 -> vec3 conversion). */
  function Rgb(c: Vec4): Vec3 { Vec3(c.r, c.g, c.b) }

  /** Every component lies in [lo, hi]. */
  predicate InBox(v: Vec3, lo: real, hi: real) {
    lo <= v.x <= hi && lo <= v.y <= hi && lo <= v.z <= hi
  }

  lemma DotSelfNonNegative(v: Vec3)
    ensures Dot(v, v) >= 0.0
  {
    SquareNonNegative(v.x);
    SquareNonNegative(v.y);
    SquareNonNegative(v.z);
  }

  lemma SquareNonNegative(a: real)
    ensures a * a >= 0.0
  {
    if a < 0.0 {
      assert a * a == (-a) * (-a);
    }
  }

  /** A vector of unit length has every component in [-1, 1]. */
  lemma {:induction false} UnitInBox(v: Vec3)
    requires Dot(v, v) == 1.0
    ensures InBox(v, -1.0, 1.0)
  {
    SquareAtMostOne(v.x, v.y * v.y + v.z * v.z);
    SquareAtMostOne(v.y, v.x * v.x + v.z * v.z);
    SquareAtMostOne(v.z, v.x * v.x + v.y * v.y);
  }

  lemma SquareAtMostOne(a: real, rest: real)
    requires rest == 1.0 - a * a
    requires rest >= 0.0
    ensures -1.0 <= a <= 1.0
  {
  }
}
