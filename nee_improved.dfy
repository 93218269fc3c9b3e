/**
  NEEImprovedIntegrator: emitted + direct + indirect radiance. The indirect
  part dispatches on the material (mirror, refraction, hemisphere samples)
  and stops at depth 3; every recursive call passes `depth + 1`.

  The functions `Color`, `Reflected`, `Indirect`, `Incoming`, `HemisphereSum`
  and `HemisphereSample` define the radiance; the methods follow the code
  statement by statement and are proved to compute exactly those functions.
 */
module NeeImproved {
  import opened Vectors
  import opened Materials
  import opened Scene
  import opened Optics
  import opened DirectLighting

  const MaxDepth: nat := 3

  /** How many more levels of indirect recursion a call at this depth may start. */
  function Budget(depth: nat): nat {
    if depth >= MaxDepth then 0 else MaxDepth - depth
  }

  /** Hemisphere samples of the diffuse branch: 100 at depth 0, 1 deeper down. */
  function SampleCount(depth: nat): (n: nat)
    ensures depth == 0 ==> n == 100
    ensures depth >= 1 ==> n == 1
  {
    if depth >= 1 then 1 else 100
  }

  // ---------------------------------------------------------------------------
  // The radiance, as functions

  /** `computeColor`: the background on a miss, emission plus reflected radiance on a hit. */
  function Color(ctx: Context, r: Ray, key: Key): Vec3
    decreases Budget(r.depth), 4, 0
  {
    match ctx.isect(r)
    case None => ctx.bg
    case Some(its) => Add(EmissiveRadiance(its.material), Reflected(ctx, its, Neg(r.d), r.depth, key))
  }

  /**
    What a hemisphere sample sees along wi from p: the reflected radiance of
    the hit, without its emission, or nothing on a miss.
   */
  function Incoming(ctx: Context, p: Vec3, wi: Vec3, depth: nat, key: Key): Vec3
    decreases Budget(depth), 4, 0
  {
    match ctx.isect(Ray(p, wi, depth))
    case None => Zero
    case Some(hit) => Reflected(ctx, hit, Neg(wi), depth, key)
  }

  /** `reflectedRadiance`: direct plus indirect. */
  function Reflected(ctx: Context, its: Intersection, wo: Vec3, depth: nat, key: Key): Vec3
    decreases Budget(depth), 3, 0
  {
    Add(Direct(ctx, its, wo, key), Indirect(ctx, its, wo, depth, key))
  }

  /**
    `indirectRadiance`: nothing at depth 3 or more; otherwise the branch the
    material's flags select, each recursing one level deeper.
   */
  function Indirect(ctx: Context, its: Intersection, wo: Vec3, depth: nat, key: Key): Vec3
    decreases Budget(depth), 2, 0
  {
    if depth >= MaxDepth then Zero
    else
      var n := ctx.lib.normalized(its.normal);
      match Dispatch(its.material)
      case SpecularBranch =>
        Color(ctx, Ray(its.point, ctx.lib.normalized(MirrorDirection(wo, n)), depth + 1), key + [0])
      case TransmissionBranch =>
        var t := Transmit(ctx.lib, wo, n, IndexOfRefraction(its.material));
        Color(ctx, Ray(its.point, ctx.lib.normalized(t.dir), depth + 1), key + [0])
      case DiffuseBranch =>
        Sum(HemisphereSamples(ctx, its, wo, n, depth, key, SampleCount(depth)))
      case NoBranch => Zero
  }

  /** The N hemisphere samples, in drawing order. */
  function HemisphereSamples(ctx: Context, its: Intersection, wo: Vec3, n: Vec3, depth: nat, key: Key, N: nat): seq<Vec3>
    requires depth < MaxDepth && 0 < N
    decreases Budget(depth), 1, 1
  {
    seq(N, i requires 0 <= i < N => HemisphereSample(ctx, its, wo, n, depth, key, N, i))
  }

  /** Sample i: `1/N * (Li * fr * max(0, wi . n)) * 2 * pi` with wi drawn about n. */
  function HemisphereSample(ctx: Context, its: Intersection, wo: Vec3, n: Vec3, depth: nat, key: Key, N: nat, i: nat): Vec3
    requires depth < MaxDepth && 0 < N
    decreases Budget(depth), 1, 0
  {
    var wi := ctx.hemisphere(n, key + [i]);
    var li := Incoming(ctx, its.point, wi, depth + 1, key + [i]);
    HemisphereWeight(ctx.lib, li, Reflectance(ctx.lib, its.material, n, wo, wi), MaxZero(Dot(wi, n)), N)
  }

  // ---------------------------------------------------------------------------
  // The integrator's code

  method ComputeColor(ctx: Context, r: Ray, key: Key) returns (color: Vec3)
    ensures color == Color(ctx, r, key)
    decreases Budget(r.depth), 4, 0
  {
    var hit := ctx.isect(r);
    if hit.Some? {
      var its := hit.value;
      var wo := Neg(r.d);
      color := EmissiveRadiance(its.material);
      var reflected := ReflectedRadiance(ctx, its, wo, r.depth, key);
      color := Add(color, reflected);
    } else {
      color := ctx.bg;
    }
  }

  method ReflectedRadiance(ctx: Context, its: Intersection, wo: Vec3, depth: nat, key: Key) returns (color: Vec3)
    ensures color == Reflected(ctx, its, wo, depth, key)
    decreases Budget(depth), 3, 0
  {
    var dir := DirectRadiance(ctx, its, wo, key);
    var ind := IndirectRadiance(ctx, its, wo, depth, key);
    color := Add(dir, ind);
  }

  method IndirectRadiance(ctx: Context, its: Intersection, wo: Vec3, depth: nat, key: Key) returns (lind: Vec3)
    ensures lind == Indirect(ctx, its, wo, depth, key)
    decreases Budget(depth), 2, 0
  {
    lind := Zero;
    if depth >= MaxDepth {
      return;
    }
    var n := ctx.lib.normalized(its.normal);
    var material := its.material;
    if HasSpecular(material) {
      var wr := ctx.lib.normalized(MirrorDirection(wo, n));
      lind := ComputeColor(ctx, Ray(its.point, wr, depth + 1), key + [0]);
    } else if HasTransmission(material) {
      var t := Transmit(ctx.lib, wo, n, IndexOfRefraction(material));
      lind := ComputeColor(ctx, Ray(its.point, ctx.lib.normalized(t.dir), depth + 1), key + [0]);
    } else if HasDiffuseOrGlossy(material) {
      lind := DiffuseRadiance(ctx, its, wo, n, depth, key);
    }
  }

  /** The diffuse/glossy branch: 100 samples at depth 0, one below. */
  method DiffuseRadiance(ctx: Context, its: Intersection, wo: Vec3, n: Vec3, depth: nat, key: Key) returns (lind: Vec3)
    requires depth < MaxDepth
    ensures lind == Sum(HemisphereSamples(ctx, its, wo, n, depth, key, SampleCount(depth)))
    decreases Budget(depth), 1, 2
  {
    var N := 100;
    if depth >= 1 {
      N := 1;
    }
    lind := HemisphereEstimate(ctx, its, wo, n, depth, key, N);
  }

  /** The sample loop: `Lind` accumulates the N samples in drawing order. */
  method HemisphereEstimate(ctx: Context, its: Intersection, wo: Vec3, n: Vec3, depth: nat, key: Key, N: nat)
    returns (lind: Vec3)
    requires depth < MaxDepth && 0 < N
    ensures lind == Sum(HemisphereSamples(ctx, its, wo, n, depth, key, N))
    decreases Budget(depth), 1, 1
  {
    ghost var samples := HemisphereSamples(ctx, its, wo, n, depth, key, N);
    lind := Zero;
    for i := 0 to N
      invariant lind == Sum(samples[..i])
    {
      var sample := HemisphereSampleRadiance(ctx, its, wo, n, depth, key, N, i);
      SumStep(samples, i);
      lind := Add(lind, sample);
    }
    assert samples[..N] == samples;
  }

  method HemisphereSampleRadiance(ctx: Context, its: Intersection, wo: Vec3, n: Vec3, depth: nat, key: Key, N: nat, i: nat)
    returns (contribution: Vec3)
    requires depth < MaxDepth && 0 < N
    ensures contribution == HemisphereSample(ctx, its, wo, n, depth, key, N, i)
    decreases Budget(depth), 1, 0
  {
    var wi := ctx.hemisphere(n, key + [i]);
    var shadowIts := ctx.isect(Ray(its.point, wi, depth + 1));
    var li := Zero;
    if shadowIts.Some? {
      li := ReflectedRadiance(ctx, shadowIts.value, Neg(wi), depth + 1, key + [i]);
    }
    var costheta := MaxZero(Dot(wi, n));
    var fr := Reflectance(ctx.lib, its.material, n, wo, wi);
    contribution := HemisphereWeight(ctx.lib, li, fr, costheta, N);
  }

  // ---------------------------------------------------------------------------
  // Properties

  /** A ray that hits nothing returns the background colour. */
  lemma MissIsBackground(ctx: Context, r: Ray, key: Key)
    requires ctx.isect(r).None?
    ensures Color(ctx, r, key) == ctx.bg
  {
  }

  /** On a hit: emission, plus direct, plus indirect at the ray's depth, seen from -r.d. */
  lemma HitIsEmittedDirectIndirect(ctx: Context, r: Ray, key: Key, its: Intersection)
    requires ctx.isect(r) == Some(its)
    ensures Color(ctx, r, key)
         == Add(EmissiveRadiance(its.material),
                Add(Direct(ctx, its, Neg(r.d), key), Indirect(ctx, its, Neg(r.d), r.depth, key)))
  {
  }

  /** At depth 3 or more nothing is reflected indirectly: only the direct term is left. */
  lemma DepthCapStopsIndirect(ctx: Context, its: Intersection, wo: Vec3, depth: nat, key: Key)
    requires depth >= MaxDepth
    ensures Indirect(ctx, its, wo, depth, key) == Zero
    ensures Reflected(ctx, its, wo, depth, key) == Direct(ctx, its, wo, key)
  {
    AddZero(Direct(ctx, its, wo, key));
  }

  /**
    A ray at depth 3 or more starts no recursion at all: background, or
    emission plus direct light at its hit.
   */
  lemma CappedRayIsLocal(ctx: Context, r: Ray, key: Key)
    requires r.depth >= MaxDepth
    ensures Color(ctx, r, key)
         == match ctx.isect(r)
            case None => ctx.bg
            case Some(its) => Add(EmissiveRadiance(its.material), Direct(ctx, its, Neg(r.d), key))
  {
    if ctx.isect(r).Some? {
      DepthCapStopsIndirect(ctx, ctx.isect(r).value, Neg(r.d), r.depth, key);
    }
  }

  /** A material with no capability flag set reflects nothing indirectly. */
  lemma NoFlagNoIndirect(ctx: Context, its: Intersection, wo: Vec3, depth: nat, key: Key)
    requires !HasSpecular(its.material) && !HasTransmission(its.material) && !HasDiffuseOrGlossy(its.material)
    ensures Indirect(ctx, its, wo, depth, key) == Zero
  {
  }

  /**
    Mirror and Transmissive both take the mirror branch below the cap: the
    indirect radiance is the colour seen along the mirror direction, one level
    deeper, and a Transmissive material never refracts.
   */
  lemma MirrorAndTransmissiveFollowMirrorRay(ctx: Context, its: Intersection, wo: Vec3, depth: nat, key: Key)
    requires its.material.Mirror? || its.material.Transmissive?
    requires depth < MaxDepth
    ensures var n := ctx.lib.normalized(its.normal);
            Indirect(ctx, its, wo, depth, key)
            == Color(ctx, Ray(its.point, ctx.lib.normalized(MirrorDirection(wo, n)), depth + 1), key + [0])
  {
    MirrorAndTransmissiveReflect(its.material);
  }

  /**
    A refracting material (transmission flag without the specular flag)
    follows the mirror direction about the facing normal exactly when the
    discriminant is negative, one level deeper.
   */
  lemma TotalInternalReflectionFollowsMirrorRay(ctx: Context, its: Intersection, wo: Vec3, depth: nat, key: Key)
    requires !HasSpecular(its.material) && HasTransmission(its.material)
    requires depth < MaxDepth
    requires Discriminant(Orient(wo, ctx.lib.normalized(its.normal), IndexOfRefraction(its.material)), wo) < 0.0
    ensures var f := Orient(wo, ctx.lib.normalized(its.normal), IndexOfRefraction(its.material));
            Indirect(ctx, its, wo, depth, key)
            == Color(ctx, Ray(its.point, ctx.lib.normalized(MirrorDirection(wo, f.normal)), depth + 1), key + [0])
  {
  }

  /**
    A hemisphere sample sees the reflected radiance of what it hits, without
    that hit's emission: the colour of the same ray minus its emitted term.
   */
  lemma IncomingOmitsEmission(ctx: Context, p: Vec3, wi: Vec3, depth: nat, key: Key, hit: Intersection)
    requires ctx.isect(Ray(p, wi, depth)) == Some(hit)
    ensures Color(ctx, Ray(p, wi, depth), key) == Add(EmissiveRadiance(hit.material), Incoming(ctx, p, wi, depth, key))
  {
  }

  /**
    The 1/N and 2 pi weights: when every sample's integrand
    `Li * fr * max(0, wi . n)` is the same vector w, the N samples add up to
    exactly 2 pi w, whatever N is.
   */
  lemma UniformSamplesGiveTwoPi(ctx: Context, its: Intersection, wo: Vec3, n: Vec3, depth: nat, key: Key, N: nat, w: Vec3)
    requires depth < MaxDepth && 0 < N
    requires forall i :: 0 <= i < N ==>
               var wi := ctx.hemisphere(n, key + [i]);
               Scale(ctx.lib.mul(Incoming(ctx, its.point, wi, depth + 1, key + [i]),
                                 Reflectance(ctx.lib, its.material, n, wo, wi)),
                     MaxZero(Dot(wi, n))) == w
    ensures Sum(HemisphereSamples(ctx, its, wo, n, depth, key, N)) == Scale(w, 2.0 * Pi)
  {
    UniformSamplesRepeat(ctx, its, wo, n, depth, key, N, w);
    RepeatedHemisphereWeight(w, N);
  }

  lemma UniformSamplesRepeat(ctx: Context, its: Intersection, wo: Vec3, n: Vec3, depth: nat, key: Key, N: nat, w: Vec3)
    requires depth < MaxDepth && 0 < N
    requires forall i :: 0 <= i < N ==>
               var wi := ctx.hemisphere(n, key + [i]);
               Scale(ctx.lib.mul(Incoming(ctx, its.point, wi, depth + 1, key + [i]),
                                 Reflectance(ctx.lib, its.material, n, wo, wi)),
                     MaxZero(Dot(wi, n))) == w
    ensures Sum(HemisphereSamples(ctx, its, wo, n, depth, key, N)) == Repeat(Scale(Scale(Scale(w, 1.0 / N as real), 2.0), Pi), N)
  {
    var samples := HemisphereSamples(ctx, its, wo, n, depth, key, N);
    var c := Scale(Scale(Scale(w, 1.0 / N as real), 2.0), Pi);
    forall i | 0 <= i < N
      ensures samples[i] == c
    {
      assert samples[i] == HemisphereSample(ctx, its, wo, n, depth, key, N, i);
    }
    SumOfConstant(samples, c);
  }
}
