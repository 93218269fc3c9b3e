/**
  Materials as the integrators see them: four capability flags and four
  queries. Mirror and Transmissive are modelled from their own code; every
  other material class (Phong, Emissive, ...) is not part of this model and
  appears as `Other`, which carries its flags and query results as data.
 */
module Materials {
  import opened Vectors

  datatype Capabilities = Capabilities(
    specular: bool,
    transmission: bool,
    diffuseOrGlossy: bool,
    emissive: bool)

  datatype Material =
    | Mirror(rhoD: Vec3, ks: Vec3, alpha: real)
    | Transmissive(rIdx: real, rhoD: Vec3, ks: Vec3, alpha: real)
    | Other(caps: Capabilities, brdf: (Vec3, Vec3, Vec3) -> Vec3, emission: Vec3, rhoD: Vec3, ior: real)

  /** The value getIndexOfRefraction returns on a material that does not refract. */
  const NotTransmissive: real := -1.0

  // ---------------------------------------------------------------------------
  // Construction

  /** `Mirror(Kd, Ks, alpha)`: the stored values are the ones the queries see. */
  function NewMirror(kd: Vec3, ks: Vec3, alpha: real): (m: Material)
    ensures m.Mirror? && m.ks == ks && m.alpha == alpha
    ensures DiffuseReflectance(m) == kd
    ensures HasSpecular(m) && !HasTransmission(m) && !HasDiffuseOrGlossy(m) && !IsEmissive(m)
  {
    Mirror(kd, ks, alpha)
  }

  /** `Transmissive(idx, Kd, Ks, alpha)`. */
  function NewTransmissive(idx: real, kd: Vec3, ks: Vec3, alpha: real): (m: Material)
    ensures m.Transmissive? && m.ks == ks && m.alpha == alpha
    ensures IndexOfRefraction(m) == idx && DiffuseReflectance(m) == kd
    ensures HasSpecular(m) && !HasTransmission(m)
  {
    Transmissive(idx, kd, ks, alpha)
  }

  /**
    `Transmissive(idx)`: only the index is set; the other members keep what
    default initialisation leaves in them, passed in here as `left*`.
   */
  function NewTransmissiveFromIndex(idx: real, leftKd: Vec3, leftKs: Vec3, leftAlpha: real): (m: Material)
    ensures m.Transmissive? && IndexOfRefraction(m) == idx
  {
    Transmissive(idx, leftKd, leftKs, leftAlpha)
  }

  // ---------------------------------------------------------------------------
  // Capability flags (constant per class for Mirror and Transmissive)

  function HasSpecular(m: Material): (b: bool)
    ensures m.Mirror? || m.Transmissive? ==> b
  {
    match m
    case Mirror(_, _, _) => true
    case Transmissive(_, _, _, _) => true
    case Other(caps, _, _, _, _) => caps.specular
  }

  /** False for Transmissive too: that class never takes a refraction branch. */
  function HasTransmission(m: Material): (b: bool)
    ensures m.Mirror? || m.Transmissive? ==> !b
  {
    match m
    case Mirror(_, _, _) => false
    case Transmissive(_, _, _, _) => false
    case Other(caps, _, _, _, _) => caps.transmission
  }

  function HasDiffuseOrGlossy(m: Material): (b: bool)
    ensures m.Mirror? || m.Transmissive? ==> !b
  {
    match m
    case Mirror(_, _, _) => false
    case Transmissive(_, _, _, _) => false
    case Other(caps, _, _, _, _) => caps.diffuseOrGlossy
  }

  function IsEmissive(m: Material): (b: bool)
    ensures m.Mirror? || m.Transmissive? ==> !b
  {
    match m
    case Mirror(_, _, _) => false
    case Transmissive(_, _, _, _) => false
    case Other(caps, _, _, _, _) => caps.emissive
  }

  // ---------------------------------------------------------------------------
  // Dispatch

  /** The branch an integrator takes at a hit. */
  datatype Branch = SpecularBranch | TransmissionBranch | DiffuseBranch | NoBranch

  /**
    The integrators test the flags in a fixed order, specular first, then
    transmission, then diffuse/glossy, and run only the first that holds.
   */
  function Dispatch(m: Material): (b: Branch)
    ensures b == SpecularBranch <==> HasSpecular(m)
    ensures b == TransmissionBranch <==> !HasSpecular(m) && HasTransmission(m)
    ensures b == DiffuseBranch <==> !HasSpecular(m) && !HasTransmission(m) && HasDiffuseOrGlossy(m)
    ensures b == NoBranch <==> !HasSpecular(m) && !HasTransmission(m) && !HasDiffuseOrGlossy(m)
  {
    if HasSpecular(m) then SpecularBranch
    else if HasTransmission(m) then TransmissionBranch
    else if HasDiffuseOrGlossy(m) then DiffuseBranch
    else NoBranch
  }

  /** Both modelled classes take the mirror branch; a Transmissive is never refracted. */
  lemma MirrorAndTransmissiveReflect(m: Material)
    requires m.Mirror? || m.Transmissive?
    ensures Dispatch(m) == SpecularBranch
  {
  }

  // ---------------------------------------------------------------------------
  // Queries

  /** The axis of the mirror lobe, `2 * (n * wi) * n - wi`, built with the unseen product. */
  function LobeAxis(lib: MathLib, n: Vec3, wi: Vec3): Vec3 {
    Sub(lib.mul(Scale(lib.mul(n, wi), 2.0), n), wi)
  }

  /** `Mirror::getReflectance`: `rho_d / pi + Ks * pow(wo . wr, alpha)`. */
  function MirrorReflectance(lib: MathLib, rhoD: Vec3, ks: Vec3, alpha: real, n: Vec3, wo: Vec3, wi: Vec3): (fr: Vec3)
    ensures ks == Zero ==> fr == Scale(rhoD, 1.0 / Pi)
  {
    var wr := LobeAxis(lib, n, wi);
    Add(Scale(rhoD, 1.0 / Pi), Scale(ks, lib.pow(Dot(wo, wr), alpha)))
  }

  function Reflectance(lib: MathLib, m: Material, n: Vec3, wo: Vec3, wi: Vec3): (fr: Vec3)
    ensures m.Transmissive? ==> fr == Zero
    ensures m.Mirror? ==> fr == MirrorReflectance(lib, m.rhoD, m.ks, m.alpha, n, wo, wi)
  {
    match m
    case Mirror(rhoD, ks, alpha) => MirrorReflectance(lib, rhoD, ks, alpha, n, wo, wi)
    case Transmissive(_, _, _, _) => Zero
    case Other(_, brdf, _, _, _) => brdf(n, wo, wi)
  }

  function IndexOfRefraction(m: Material): (idx: real)
    ensures m.Mirror? ==> idx == NotTransmissive
    ensures m.Transmissive? ==> idx == m.rIdx
  {
    match m
    case Mirror(_, _, _) => NotTransmissive
    case Transmissive(rIdx, _, _, _) => rIdx
    case Other(_, _, _, _, ior) => ior
  }

  function EmissiveRadiance(m: Material): (le: Vec3)
    ensures m.Mirror? || m.Transmissive? ==> le == Zero
  {
    match m
    case Mirror(_, _, _) => Zero
    case Transmissive(_, _, _, _) => Zero
    case Other(_, _, emission, _, _) => emission
  }

  function DiffuseReflectance(m: Material): (kd: Vec3)
    ensures kd == m.rhoD
  {
    m.rhoD
  }
}
