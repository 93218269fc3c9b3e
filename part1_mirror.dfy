/**
  The earlier Mirror material of the first assignment stage: every query but
  the diffuse reflectance is a constant.
 */
module Part1Mirror {
  import opened Vectors

  datatype Mirror = Mirror(rhoD: Vec3, ks: Vec3, alpha: real)

  /** The reflectance is left as a stub: black for every geometry. */
  function Reflectance(m: Mirror, n: Vec3, wo: Vec3, wi: Vec3): (fr: Vec3)
    ensures fr == Zero
  {
    Vec3(0.0, 0.0, 0.0)
  }

  /** A mirror does not refract: the sentinel -1. */
  function IndexOfRefraction(m: Mirror): (idx: real)
    ensures idx < 0.0 && idx == -1.0
  {
    -1.0
  }

  function EmissiveRadiance(m: Mirror): (le: Vec3)
    ensures le == Zero
  {
    Vec3(0.0, 0.0, 0.0)
  }

  function DiffuseReflectance(m: Mirror): (kd: Vec3)
    ensures kd == m.rhoD
  {
    m.rhoD
  }
}
