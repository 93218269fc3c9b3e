/**
  HemisphericalIntegrator: a mirror or transmissive hit recurses along the
  mirror, reflected or refracted direction; a diffuse/glossy hit takes 200
  hemisphere samples that see only the emission of what they hit directly,
  plus the ambient term; finally an emissive material adds its own emission.

  No ray carries a depth here (every ray is built with depth 0) and nothing
  caps the recursion, so it is modelled with fuel: `None` means the fuel ran
  out before the recursion ended.
 */
module Hemispherical {
  import opened Vectors
  import opened Materials
  import opened Scene
  import opened Optics

  /** The number of hemisphere samples at every diffuse/glossy hit. */
  const SampleCount: nat := 200

  // ---------------------------------------------------------------------------
  // The radiance, as functions

  /** The emission of a surface if its material is emissive, black otherwise. */
  function EmissionIfEmissive(m: Material): (le: Vec3)
    ensures IsEmissive(m) ==> le == EmissiveRadiance(m)
    ensures !IsEmissive(m) ==> le == Zero
  {
    if IsEmissive(m) then EmissiveRadiance(m) else Zero
  }

  /** `computeColor` with the given fuel. */
  function HemiColor(ctx: Context, r: Ray, key: Key, fuel: nat): Option<Vec3>
    decreases fuel, 1
  {
    if fuel == 0 then None
    else
      match ctx.isect(r)
      case None => Some(ctx.bg)
      case Some(its) =>
        match BranchColor(ctx, its, Neg(r.d), key, fuel)
        case None => None
        case Some(c) => Some(if IsEmissive(its.material) then Add(c, EmissiveRadiance(its.material)) else c)
  }

  /** The colour of the branch the material's flags select, before the emission is added. */
  function BranchColor(ctx: Context, its: Intersection, wo: Vec3, key: Key, fuel: nat): Option<Vec3>
    requires fuel > 0
    decreases fuel, 0
  {
    var n := ctx.lib.normalized(its.normal);
    match Dispatch(its.material)
    case SpecularBranch =>
      HemiColor(ctx, Ray(its.point, ctx.lib.normalized(MirrorDirection(wo, n)), 0), key + [0], fuel - 1)
    case TransmissionBranch =>
      var t := Transmit(ctx.lib, wo, n, IndexOfRefraction(its.material));
      HemiColor(ctx, Ray(its.point, ctx.lib.normalized(t.dir), 0), key + [0], fuel - 1)
    case DiffuseBranch => Some(Diffuse(ctx, its, wo, n, key))
    case NoBranch => Some(Zero)
  }

  /** The diffuse/glossy branch: the sample sum, then `ambientLight * kd`. */
  function Diffuse(ctx: Context, its: Intersection, wo: Vec3, n: Vec3, key: Key): Vec3 {
    Add(Sum(Samples(ctx, its, wo, n, key)), ctx.lib.mul(Ambient, DiffuseReflectance(its.material)))
  }

  /** What sample i sees along wi: the emission of an emissive surface it hits, black otherwise. */
  function SeenEmission(ctx: Context, p: Vec3, wi: Vec3): (li: Vec3)
    ensures ctx.isect(Ray(p, wi, 0)).None? ==> li == Zero
    ensures ctx.isect(Ray(p, wi, 0)).Some? ==> li == EmissionIfEmissive(ctx.isect(Ray(p, wi, 0)).value.material)
  {
    match ctx.isect(Ray(p, wi, 0))
    case None => Zero
    case Some(hit) => EmissionIfEmissive(hit.material)
  }

  /** The 200 samples, in drawing order. */
  function Samples(ctx: Context, its: Intersection, wo: Vec3, n: Vec3, key: Key): (s: seq<Vec3>)
    ensures |s| == SampleCount
  {
    seq(SampleCount, i requires 0 <= i < SampleCount => Sample(ctx, its, wo, n, key, i))
  }

  /** Sample i: `1/N * (Li * fr * max(0, wi . n)) * 2 * pi` with wi drawn about n. */
  function Sample(ctx: Context, its: Intersection, wo: Vec3, n: Vec3, key: Key, i: nat): Vec3 {
    var wi := ctx.hemisphere(n, key + [i]);
    HemisphereWeight(ctx.lib, SeenEmission(ctx, its.point, wi), Reflectance(ctx.lib, its.material, n, wo, wi),
                     MaxZero(Dot(wi, n)), SampleCount)
  }

  // ---------------------------------------------------------------------------
  // The integrator's code, given the same fuel

  method ComputeColor(ctx: Context, r: Ray, key: Key, fuel: nat) returns (color: Option<Vec3>)
    ensures color == HemiColor(ctx, r, key, fuel)
    decreases fuel, 1
  {
    if fuel == 0 {
      return None;
    }
    var hit := ctx.isect(r);
    if hit.None? {
      return Some(ctx.bg);
    }
    var its := hit.value;
    var branch := BranchRadiance(ctx, its, Neg(r.d), key, fuel);
    if branch.None? {
      return None;
    }
    var c := branch.value;
    if IsEmissive(its.material) {
      c := Add(c, EmissiveRadiance(its.material));
    }
    color := Some(c);
  }

  method BranchRadiance(ctx: Context, its: Intersection, wo: Vec3, key: Key, fuel: nat) returns (color: Option<Vec3>)
    requires fuel > 0
    ensures color == BranchColor(ctx, its, wo, key, fuel)
    decreases fuel, 0
  {
    var n := ctx.lib.normalized(its.normal);
    var material := its.material;
    if HasSpecular(material) {
      var wr := ctx.lib.normalized(MirrorDirection(wo, n));
      color := ComputeColor(ctx, Ray(its.point, wr, 0), key + [0], fuel - 1);
    } else if HasTransmission(material) {
      var t := Transmit(ctx.lib, wo, n, IndexOfRefraction(material));
      color := ComputeColor(ctx, Ray(its.point, ctx.lib.normalized(t.dir), 0), key + [0], fuel - 1);
    } else if HasDiffuseOrGlossy(material) {
      var c := DiffuseRadiance(ctx, its, wo, n, key);
      color := Some(c);
    } else {
      color := Some(Zero);
    }
  }

  /** The sample loop, then the ambient term. */
  method DiffuseRadiance(ctx: Context, its: Intersection, wo: Vec3, n: Vec3, key: Key) returns (color: Vec3)
    ensures color == Diffuse(ctx, its, wo, n, key)
  {
    ghost var samples := Samples(ctx, its, wo, n, key);
    var N := 200;
    color := Zero;
    for i := 0 to N
      invariant color == Sum(samples[..i])
    {
      var sample := SampleRadiance(ctx, its, wo, n, key, i);
      SumStep(samples, i);
      color := Add(color, sample);
    }
    assert samples[..N] == samples;
    var kd := DiffuseReflectance(its.material);
    color := Add(color, ctx.lib.mul(Ambient, kd));
  }

  method SampleRadiance(ctx: Context, its: Intersection, wo: Vec3, n: Vec3, key: Key, i: nat) returns (contribution: Vec3)
    ensures contribution == Sample(ctx, its, wo, n, key, i)
  {
    var wi := ctx.hemisphere(n, key + [i]);
    var shadowIts := ctx.isect(Ray(its.point, wi, 0));
    var li := Zero;
    if shadowIts.Some? && IsEmissive(shadowIts.value.material) {
      li := EmissiveRadiance(shadowIts.value.material);
    }
    var costheta := MaxZero(Dot(wi, n));
    var fr := Reflectance(ctx.lib, its.material, n, wo, wi);
    contribution := HemisphereWeight(ctx.lib, li, fr, costheta, SampleCount);
  }

  // ---------------------------------------------------------------------------
  // Properties

  /** A ray that hits nothing returns the background colour. */
  lemma MissIsBackground(ctx: Context, r: Ray, key: Key, fuel: nat)
    requires fuel > 0
    requires ctx.isect(r).None?
    ensures HemiColor(ctx, r, key, fuel) == Some(ctx.bg)
  {
  }

  /**
    A Mirror or a Transmissive hit shows exactly the colour along the mirror
    direction about the normalized normal, seen by a fresh depth-0 ray: its
    own diffuse term and emission play no part.
   */
  lemma MirrorAndTransmissiveShowMirrorRay(ctx: Context, r: Ray, key: Key, fuel: nat)
    requires fuel > 0
    requires ctx.isect(r).Some?
    requires ctx.isect(r).value.material.Mirror? || ctx.isect(r).value.material.Transmissive?
    ensures var its := ctx.isect(r).value;
            var wr := ctx.lib.normalized(MirrorDirection(Neg(r.d), ctx.lib.normalized(its.normal)));
            HemiColor(ctx, r, key, fuel) == HemiColor(ctx, Ray(its.point, wr, 0), key + [0], fuel - 1)
  {
    MirrorAndTransmissiveReflect(ctx.isect(r).value.material);
  }

  /**
    The emission is added after the branch: an emissive surface whose
    material sets none of the specular, transmission or diffuse flags shows
    exactly its emission.
   */
  lemma PureEmitterShowsItsEmission(ctx: Context, r: Ray, key: Key, fuel: nat)
    requires fuel > 0
    requires ctx.isect(r).Some?
    requires Dispatch(ctx.isect(r).value.material) == NoBranch && IsEmissive(ctx.isect(r).value.material)
    ensures HemiColor(ctx, r, key, fuel) == Some(EmissiveRadiance(ctx.isect(r).value.material))
  {
    var e := EmissiveRadiance(ctx.isect(r).value.material);
    assert Add(Zero, e) == e;
  }

  /**
    Nothing bounds the recursion: in a scene where every ray hits a Mirror,
    no amount of fuel is enough.
   */
  lemma {:induction false} MirrorCorridorNeverEnds(ctx: Context, r: Ray, key: Key, fuel: nat)
    requires forall ray: Ray :: ctx.isect(ray).Some? && ctx.isect(ray).value.material.Mirror?
    ensures HemiColor(ctx, r, key, fuel) == None
    decreases fuel
  {
    if fuel > 0 {
      var its := ctx.isect(r).value;
      MirrorAndTransmissiveReflect(its.material);
      var wr := ctx.lib.normalized(MirrorDirection(Neg(r.d), ctx.lib.normalized(its.normal)));
      MirrorCorridorNeverEnds(ctx, Ray(its.point, wr, 0), key + [0], fuel - 1);
    }
  }

  /** Fuel only decides whether the recursion finishes, never the colour: more fuel gives the same colour. */
  lemma {:induction false} MoreFuelSameColor(ctx: Context, r: Ray, key: Key, fuel: nat)
    requires HemiColor(ctx, r, key, fuel).Some?
    ensures HemiColor(ctx, r, key, fuel + 1) == HemiColor(ctx, r, key, fuel)
    decreases fuel, 1
  {
    if ctx.isect(r).Some? {
      MoreFuelSameBranch(ctx, ctx.isect(r).value, Neg(r.d), key, fuel);
    }
  }

  lemma {:induction false} MoreFuelSameBranch(ctx: Context, its: Intersection, wo: Vec3, key: Key, fuel: nat)
    requires fuel > 0
    requires BranchColor(ctx, its, wo, key, fuel).Some?
    ensures BranchColor(ctx, its, wo, key, fuel + 1) == BranchColor(ctx, its, wo, key, fuel)
    decreases fuel, 0
  {
    var n := ctx.lib.normalized(its.normal);
    match Dispatch(its.material)
    case SpecularBranch =>
      MoreFuelSameColor(ctx, Ray(its.point, ctx.lib.normalized(MirrorDirection(wo, n)), 0), key + [0], fuel - 1);
    case TransmissionBranch =>
      var t := Transmit(ctx.lib, wo, n, IndexOfRefraction(its.material));
      MoreFuelSameColor(ctx, Ray(its.point, ctx.lib.normalized(t.dir), 0), key + [0], fuel - 1);
    case DiffuseBranch =>
    case NoBranch =>
  }

  /**
    The samples see only emission, and only one bounce away: when no sample
    ray hits an emissive surface, the diffuse branch is the ambient term
    alone (given a product in which black absorbs), however bright the
    surfaces the samples do hit.
   */
  lemma NoEmitterInViewIsAmbientOnly(ctx: Context, its: Intersection, wo: Vec3, n: Vec3, key: Key)
    requires BlackAbsorbs(ctx.lib)
    requires forall i :: 0 <= i < SampleCount ==>
               var hit := ctx.isect(Ray(its.point, ctx.hemisphere(n, key + [i]), 0));
               hit.None? || !IsEmissive(hit.value.material)
    ensures Diffuse(ctx, its, wo, n, key) == ctx.lib.mul(Ambient, DiffuseReflectance(its.material))
  {
    var samples := Samples(ctx, its, wo, n, key);
    forall i | 0 <= i < SampleCount
      ensures samples[i] == Zero
    {
      assert samples[i] == Sample(ctx, its, wo, n, key, i);
      DarkSampleIsBlack(ctx, its, wo, n, key, i);
    }
    SumOfZeros(samples);
    assert Add(Zero, ctx.lib.mul(Ambient, DiffuseReflectance(its.material)))
        == ctx.lib.mul(Ambient, DiffuseReflectance(its.material));
  }

  /** A sample whose ray hits no emissive surface adds nothing (given a product in which black absorbs). */
  lemma DarkSampleIsBlack(ctx: Context, its: Intersection, wo: Vec3, n: Vec3, key: Key, i: nat)
    requires BlackAbsorbs(ctx.lib)
    requires var hit := ctx.isect(Ray(its.point, ctx.hemisphere(n, key + [i]), 0));
             hit.None? || !IsEmissive(hit.value.material)
    ensures Sample(ctx, its, wo, n, key, i) == Zero
  {
    var wi := ctx.hemisphere(n, key + [i]);
    var fr := Reflectance(ctx.lib, its.material, n, wo, wi);
    assert ctx.lib.mul(SeenEmission(ctx, its.point, wi), fr) == Zero;
    ScaleZero(MaxZero(Dot(wi, n)) * (2.0 * Pi / SampleCount as real));
  }

  /**
    The 1/N and 2 pi weights: when every sample's integrand
    `Li * fr * max(0, wi . n)` is the same vector w, the diffuse branch is
    2 pi w plus the ambient term.
   */
  lemma UniformSamplesGiveTwoPi(ctx: Context, its: Intersection, wo: Vec3, n: Vec3, key: Key, w: Vec3)
    requires forall i :: 0 <= i < SampleCount ==>
               var wi := ctx.hemisphere(n, key + [i]);
               Scale(ctx.lib.mul(SeenEmission(ctx, its.point, wi), Reflectance(ctx.lib, its.material, n, wo, wi)),
                     MaxZero(Dot(wi, n))) == w
    ensures Diffuse(ctx, its, wo, n, key)
         == Add(Scale(w, 2.0 * Pi), ctx.lib.mul(Ambient, DiffuseReflectance(its.material)))
  {
    var samples := Samples(ctx, its, wo, n, key);
    var c := Scale(Scale(Scale(w, 1.0 / SampleCount as real), 2.0), Pi);
    forall i | 0 <= i < SampleCount
      ensures samples[i] == c
    {
      assert samples[i] == Sample(ctx, its, wo, n, key, i);
    }
    SumOfConstant(samples, c);
    RepeatedHemisphereWeight(w, SampleCount);
  }
}
