/** The three scatter laws of src/material.h.  Each `scatter` writes its two reference
    out-parameters (attenuation, scattered ray) and returns whether the ray goes on.  The
    random unit vector each law draws is the parameter `u`. */
module Materials {
  import opened Numeric
  import opened Vectors
  import opened Rays
  import opened Hittables
  import opened Utils

  /** What one call of scatter delivers: the return value and the two out-parameters. */
  datatype Scattering = Scattering(ok: bool, attenuation: Vec3, scattered: Ray)

  /** The lambertian direction: normal + u, or the normal itself when that sum is near
      zero (all components below near_zero's default epsilon). */
  function LambertianDirection(normal: Vec3, u: Vec3): (d: Vec3)
    ensures d == Add(normal, u) || d == normal
    ensures NearZero(d, NearZeroEpsilon) ==> NearZero(normal, NearZeroEpsilon)
  {
    var d := Add(normal, u);
    if NearZero(d, NearZeroEpsilon) then normal else d
  }

  /** The direction metal scatters into: the mirror image of the unit incoming direction,
      perturbed by fuzz * u. */
  function MetalDirection(dir: Vec3, normal: Vec3, fuzz: real, u: Vec3, sqrt: real -> real): Vec3 {
    Add(Reflect(UnitVector(dir, sqrt), normal), Scale(u, fuzz))
  }

  /** The ratio of refraction indices: 1/ir entering the surface (front face), ir leaving it. */
  function RefractionRatio(frontFace: bool, ir: NonZero): (ratio: real)
    ensures frontFace ==> ratio * ir == 1.0
    ensures !frontFace ==> ratio == ir
  {
    if frontFace then 1.0 / ir else ir
  }

  /** The outcome of `mat->scatter(r_in, rec, attenuation, scattered)` for each kind. */
  function ScatterOf(mat: Material, rIn: Ray, rec: HitRecord, u: Vec3, sqrt: real -> real): Scattering {
    match mat
    case Lambertian(albedo) =>
      Scattering(true, albedo, Ray(rec.p, LambertianDirection(rec.normal, u)))
    case Metal(albedo, fuzz) =>
      var dir := MetalDirection(rIn.direction, rec.normal, fuzz, u, sqrt);
      Scattering(Dot(dir, rec.normal) > 0.0, albedo, Ray(rec.p, dir))
    case Dielectric(ir) =>
      var ratio := RefractionRatio(rec.frontFace, ir);
      Scattering(true, Vec3(1.0, 1.0, 1.0),
                 Ray(rec.p, Refract(UnitVector(rIn.direction, sqrt), rec.normal, ratio, sqrt)))
  }

  /** `lambertian::scatter`. */
  method LambertianScatter(albedo: Vec3, rIn: Ray, rec: HitRecord, u: Vec3)
    returns (ok: bool, attenuation: Vec3, scattered: Ray)
    ensures ok && attenuation == albedo && scattered.origin == rec.p
    ensures forall sqrt :: Scattering(ok, attenuation, scattered)
                           == ScatterOf(Lambertian(albedo), rIn, rec, u, sqrt)
  {
    var scatterDirection := Add(rec.normal, u);
    if NearZero(scatterDirection, NearZeroEpsilon) {
      scatterDirection := rec.normal;
    }
    scattered := Ray(rec.p, scatterDirection);
    attenuation := albedo;
    ok := true;
  }

  /** `metal::scatter`: both out-parameters are written even when it returns false. */
  method MetalScatter(albedo: Vec3, fuzz: real, rIn: Ray, rec: HitRecord, u: Vec3, sqrt: real -> real)
    returns (ok: bool, attenuation: Vec3, scattered: Ray)
    ensures attenuation == albedo && scattered.origin == rec.p
    ensures ok <==> Dot(scattered.direction, rec.normal) > 0.0
    ensures Scattering(ok, attenuation, scattered)
         == ScatterOf(Metal(albedo, fuzz), rIn, rec, u, sqrt)
  {
    var reflected := Reflect(UnitVector(rIn.direction, sqrt), rec.normal);
    scattered := Ray(rec.p, Add(reflected, Scale(u, fuzz)));
    attenuation := albedo;
    ok := Dot(scattered.direction, rec.normal) > 0.0;
  }

  /** `dielectric::scatter`. */
  method DielectricScatter(ir: NonZero, rIn: Ray, rec: HitRecord, sqrt: real -> real)
    returns (ok: bool, attenuation: Vec3, scattered: Ray)
    ensures ok && attenuation == Vec3(1.0, 1.0, 1.0) && scattered.origin == rec.p
    ensures forall u :: Scattering(ok, attenuation, scattered)
                        == ScatterOf(Dielectric(ir), rIn, rec, u, sqrt)
  {
    attenuation := Vec3(1.0, 1.0, 1.0);
    var refractionRatio := if rec.frontFace then 1.0 / ir else ir;
    var unitDirection := UnitVector(rIn.direction, sqrt);
    var refracted := Refract(unitDirection, rec.normal, refractionRatio, sqrt);
    scattered := Ray(rec.p, refracted);
    ok := true;
  }

  /** The virtual call `mat->scatter(...)`, dispatched on the kind of material. */
  method Scatter(mat: Material, rIn: Ray, rec: HitRecord, u: Vec3, sqrt: real -> real)
    returns (ok: bool, attenuation: Vec3, scattered: Ray)
    ensures Scattering(ok, attenuation, scattered) == ScatterOf(mat, rIn, rec, u, sqrt)
  {
    match mat {
      case Lambertian(albedo) =>
        ok, attenuation, scattered := LambertianScatter(albedo, rIn, rec, u);
      case Metal(albedo, fuzz) =>
        ok, attenuation, scattered := MetalScatter(albedo, fuzz, rIn, rec, u, sqrt);
      case Dielectric(ir) =>
        ok, attenuation, scattered := DielectricScatter(ir, rIn, rec, sqrt);
    }
  }

  // ---------------------------------------------------------------- properties

  /** Only metal can absorb: lambertian and dielectric always scatter, from the hit point. */
  lemma OnlyMetalAbsorbs(mat: Material, rIn: Ray, rec: HitRecord, u: Vec3, sqrt: real -> real)
    ensures ScatterOf(mat, rIn, rec, u, sqrt).scattered.origin == rec.p
    ensures !ScatterOf(mat, rIn, rec, u, sqrt).ok ==> mat.Metal?
  {
  }

  /** A perfect mirror (fuzz 0) with a unit normal keeps every ray that comes in against
      the normal: the reflection leaves on the normal's side. */
  lemma MirrorReflects(albedo: Vec3, rIn: Ray, rec: HitRecord, u: Vec3, sqrt: real -> real)
    requires LengthSquared(rec.normal) == 1.0
    requires Dot(UnitVector(rIn.direction, sqrt), rec.normal) < 0.0
    ensures ScatterOf(Metal(albedo, 0.0), rIn, rec, u, sqrt).ok
    ensures ScatterOf(Metal(albedo, 0.0), rIn, rec, u, sqrt).scattered.direction
         == Reflect(UnitVector(rIn.direction, sqrt), rec.normal)
  {
    var unit := UnitVector(rIn.direction, sqrt);
    ReflectFlipsNormalPart(unit, rec.normal);
    assert Add(Reflect(unit, rec.normal), Scale(u, 0.0)) == Reflect(unit, rec.normal);
  }

  /** Dielectric attenuation (1, 1, 1) passes any colour through unchanged. */
  lemma DielectricKeepsColour(colour: Vec3)
    ensures Mul(Vec3(1.0, 1.0, 1.0), colour) == colour
  {
  }
}
