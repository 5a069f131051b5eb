/** Material::scatter and its Lambertian, Metal and Dielectric overrides.
    Each returns the bool scatter returns together with the values it leaves
    in the out-parameters attenuation and rayScattered, whose values before
    the call are passed in. */
module Scattering {
  import opened Vectors
  import opened Numerics
  import opened Rays
  import opened Materials
  import opened Hittable

  datatype Scattered = Scattered(scattered: bool, attenuation: Vec3, ray: Ray)

  /** The random draws a scatter call consumes:
      Utils::Vector::randomInUnitSphereVector() and Utils::generateRandomNumber(). */
  datatype Draws = Draws(inUnitSphere: Vec3, uniform: real)

  function LambertianScatter(albedo: Vec3, rec: HitRecord, draws: Draws, m: Primitives): (s: Scattered)
    ensures s.scattered
    ensures s.attenuation == albedo
    ensures s.ray.origin == rec.p
    ensures var sum := Add(rec.normal, draws.inUnitSphere);
            s.ray.direction == if m.nearZero(sum) then rec.normal else sum
  {
    var scatterDirection := Add(rec.normal, draws.inUnitSphere);
    var scatterDirection' := if m.nearZero(scatterDirection) then rec.normal else scatterDirection;
    Scattered(true, albedo, Ray(rec.p, scatterDirection'))
  }

  /** The reflected direction, normalised, plus fuzz times the random vector. */
  function MetalDirection(fuzz: real, rayIn: Ray, rec: HitRecord, draws: Draws, m: Primitives): Vec3 {
    Add(m.normalize(m.reflect(rayIn.direction, rec.normal)), Scale(fuzz, draws.inUnitSphere))
  }

  function MetalScatter(albedo: Vec3, fuzz: real, rayIn: Ray, rec: HitRecord, draws: Draws, m: Primitives): (s: Scattered)
    ensures s.attenuation == albedo && s.ray.origin == rec.p
    ensures s.ray.direction == MetalDirection(fuzz, rayIn, rec, draws, m)
    ensures s.scattered <==> Dot(s.ray.direction, rec.normal) > 0.0
  {
    var reflected := MetalDirection(fuzz, rayIn, rec, draws, m);
    var rayScattered := Ray(rec.p, reflected);
    Scattered(Dot(rayScattered.direction, rec.normal) > 0.0, albedo, rayScattered)
  }

  /** Without fuzz, Metal sends the normalised mirror reflection. */
  lemma MetalWithoutFuzz(albedo: Vec3, rayIn: Ray, rec: HitRecord, draws: Draws, m: Primitives)
    ensures MetalScatter(albedo, 0.0, rayIn, rec, draws, m).ray.direction
         == m.normalize(m.reflect(rayIn.direction, rec.normal))
  {
  }

  /** The ratio of refraction indices across the surface. */
  function RefractionRatio(refractionIndex: real, frontFace: bool): (ri: real)
    requires frontFace ==> refractionIndex != 0.0
    ensures frontFace ==> ri * refractionIndex == 1.0
    ensures !frontFace ==> ri == refractionIndex
  {
    if frontFace then 1.0 / refractionIndex else refractionIndex
  }

  /** fmin(dot(-unitDirection, normal), 1.0) */
  function CosAlpha(unitDirection: Vec3, normal: Vec3): (c: real)
    ensures c <= 1.0
    ensures c == 1.0 || c == Dot(Neg(unitDirection), normal)
    ensures c <= Dot(Neg(unitDirection), normal)
  {
    var d := Dot(Neg(unitDirection), normal);
    if d < 1.0 then d else 1.0
  }

  /** ri * sqrt(1 - cos^2) > 1. A negative argument of sqrt gives a NaN,
      and a comparison with NaN is false. */
  predicate CannotRefract(ri: real, cosAlpha: real, m: Primitives) {
    var s2 := 1.0 - cosAlpha * cosAlpha;
    s2 >= 0.0 && ri * m.sqrt(s2) > 1.0
  }

  function DielectricScatter(refractionIndex: real, rayIn: Ray, rec: HitRecord, draws: Draws, m: Primitives): (s: Scattered)
    requires rec.frontFace ==> refractionIndex != 0.0
    requires refractionIndex != -1.0
    ensures s.scattered
    ensures s.attenuation == One
    ensures s.ray.origin == rec.p
    ensures var unit := m.normalize(rayIn.direction);
            var ri := RefractionRatio(refractionIndex, rec.frontFace);
            var cosAlpha := CosAlpha(unit, rec.normal);
            var reflected := m.reflect(unit, rec.normal);
            var refracted := m.refract(unit, rec.normal, ri);
            && (CannotRefract(ri, cosAlpha, m) ==> s.ray.direction == reflected)
            && (!CannotRefract(ri, cosAlpha, m) ==>
                  s.ray.direction == if Reflectance(cosAlpha, ri) > draws.uniform then reflected else refracted)
  {
    var ri := RefractionRatio(refractionIndex, rec.frontFace);
    assert ri != -1.0;
    var unitDirection := m.normalize(rayIn.direction);
    var cosAlpha := CosAlpha(unitDirection, rec.normal);
    var direction :=
      if CannotRefract(ri, cosAlpha, m) || Reflectance(cosAlpha, ri) > draws.uniform
      then m.reflect(unitDirection, rec.normal)
      else m.refract(unitDirection, rec.normal, ri);
    Scattered(true, One, Ray(rec.p, direction))
  }

  /** Under total internal reflection the draw does not matter. */
  lemma TotalInternalReflectionIgnoresDraw(refractionIndex: real, rayIn: Ray, rec: HitRecord, d1: Draws, d2: Draws, m: Primitives)
    requires rec.frontFace ==> refractionIndex != 0.0
    requires refractionIndex != -1.0
    requires CannotRefract(RefractionRatio(refractionIndex, rec.frontFace),
                           CosAlpha(m.normalize(rayIn.direction), rec.normal), m)
    ensures DielectricScatter(refractionIndex, rayIn, rec, d1, m) == DielectricScatter(refractionIndex, rayIn, rec, d2, m)
  {
  }

  /** The virtual scatter, selected by the material of the hit. */
  function Scatter(mat: Material, rayIn: Ray, rec: HitRecord, draws: Draws, m: Primitives,
                   attenuation: Vec3, rayScattered: Ray): (s: Scattered)
    requires mat.Dielectric? ==> mat.refractionIndex != -1.0
    requires mat.Dielectric? && rec.frontFace ==> mat.refractionIndex != 0.0
    ensures mat.Absorb? ==> s == Scattered(false, attenuation, rayScattered)
    ensures mat.Lambertian? || mat.Dielectric? ==> s.scattered
    ensures !mat.Absorb? ==> s.ray.origin == rec.p
    ensures mat.Lambertian? || mat.Metal? ==> s.attenuation == mat.albedo
  {
    match mat
    case Absorb => Scattered(false, attenuation, rayScattered)
    case Lambertian(albedo) => LambertianScatter(albedo, rec, draws, m)
    case Metal(albedo, fuzz) => MetalScatter(albedo, fuzz, rayIn, rec, draws, m)
    case Dielectric(refractionIndex) => DielectricScatter(refractionIndex, rayIn, rec, draws, m)
  }
}
