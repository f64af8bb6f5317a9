/** The ray of src/ray.h: an origin and a direction; `at(t)` walks t directions along it. */
module Rays {
  import opened Vectors

  /** `Ray(origin, direction)`; the accessors `origin()` and `direction()` return exactly
      the constructor arguments, which is what the datatype's destructors do. */
  datatype Ray = Ray(origin: Vec3, direction: Vec3)

  /** `Ray()`: both members are default-constructed Vec3s. */
  const DefaultRay: Ray := Ray(Vec3(0.0, 0.0, 0.0), Vec3(0.0, 0.0, 0.0))

  /** `at(t)`: origin + direction * t, so the displacement from the origin is the
      direction scaled by t. */
  function At(r: Ray, t: real): (p: Vec3)
    ensures Sub(p, r.origin) == Scale(r.direction, t)
  {
    Add(r.origin, Scale(r.direction, t))
  }

  lemma AtZero(r: Ray)
    ensures At(r, 0.0) == r.origin
  {
  }

  lemma DefaultRayIsZero()
    ensures DefaultRay.origin == Zero3 && DefaultRay.direction == Zero3
    ensures forall t :: At(DefaultRay, t) == Zero3
  {
  }
}
