/** The hit record, the parameter range and the materials a hit can carry
    (src/hittable.h, with the material kinds of src/material.h). */
module Hittables {
  import opened Numeric
  import opened Vectors
  import opened Rays

  /** The three material kinds; `ir` is the index of refraction, divided by in
      dielectric::scatter. */
  datatype Material =
    | Lambertian(albedo: Vec3)
    | Metal(albedo: Vec3, fuzz: real)
    | Dielectric(ir: NonZero)

  /** HitRecord: the point, the stored normal, the ray parameter, which side was hit and
      the material of the object hit. */
  datatype HitRecord = HitRecord(p: Vec3, normal: Vec3, t: real, frontFace: bool, mat: Material)

  /** `set_face_normal(r, outward)`: the record with front_face and normal overwritten.
      The stored normal always faces against the ray, and nothing else changes. */
  function SetFaceNormal(rec: HitRecord, r: Ray, outward: Vec3): (res: HitRecord)
    ensures res.frontFace <==> Dot(r.direction, outward) < 0.0
    ensures res.normal == (if res.frontFace then outward else Neg(outward))
    ensures Dot(r.direction, res.normal) <= 0.0
    ensures res.p == rec.p && res.t == rec.t && res.mat == rec.mat
  {
    var frontFace := Dot(r.direction, outward) < 0.0;
    DotNeg(outward, r.direction);
    rec.(frontFace := frontFace, normal := if frontFace then outward else Sub(Zero3, outward))
  }

  /** Range: the open interval (start, end) of accepted ray parameters. */
  datatype Range = Range(start: real, end: real)

  /** A default Range: (smallest positive normal float, largest float). */
  const DefaultRange: Range := Range(FloatMin, FloatMax)

  predicate InRange(range: Range, t: real) {
    range.start < t < range.end
  }

  /** No parameter t <= 0 lies in the default range. */
  lemma DefaultRangeIsPositive(t: real)
    ensures InRange(DefaultRange, t) ==> 0.0 < t
  {
  }
}
