/**
  PurePathIntegrator: the colour starts as the hit's emission and stops
  there at depth 5; below that the material's flags select one branch.

  The mirror and refraction branches recurse with the ray's own depth, and
  their result replaces the emission; only total internal reflection and
  the hemisphere samples go one level deeper. Nothing bounds a chain of
  mirror bounces, so the recursion is modelled with fuel: `None` means the
  fuel ran out before the recursion ended.
 */
module PurePath {
  import opened Vectors
  import opened Materials
  import opened Scene
  import opened Optics

  const MaxDepth: nat := 5

  /** Hemisphere samples: 256 at depth 0, 1 deeper down. */
  function SampleCount(depth: nat): (n: nat)
    ensures depth == 0 ==> n == 256
    ensures depth >= 1 ==> n == 1
  {
    if depth >= 1 then 1 else 256
  }

  // ---------------------------------------------------------------------------
  // Sums of values that may be missing

  /** The values of s added in order, or None as soon as one of them is missing. */
  function SumAll(s: seq<Option<Vec3>>): Option<Vec3> {
    if |s| == 0 then Some(Zero)
    else
      match SumAll(s[..|s| - 1])
      case None => None
      case Some(acc) =>
        match s[|s| - 1]
        case None => None
        case Some(v) => Some(Add(acc, v))
  }

  lemma SumAllStep(s: seq<Option<Vec3>>, i: nat, acc: Vec3)
    requires i < |s| && SumAll(s[..i]) == Some(acc)
    ensures s[i].Some? ==> SumAll(s[..i + 1]) == Some(Add(acc, s[i].value))
    ensures s[i].None? ==> SumAll(s[..i + 1]) == None
  {
    assert s[..i + 1][..i] == s[..i];
  }

  /** Once a prefix has a missing value, so has the whole sequence. */
  lemma {:induction false} SumAllMissing(s: seq<Option<Vec3>>, k: nat)
    requires k <= |s| && SumAll(s[..k]) == None
    ensures SumAll(s) == None
    decreases |s| - k
  {
    if k < |s| {
      assert s[..k + 1][..k] == s[..k];
      SumAllMissing(s, k + 1);
    } else {
      assert s[..k] == s;
    }
  }

  /** A sum that is present has every term present. */
  lemma {:induction false} SumAllPresent(s: seq<Option<Vec3>>)
    requires SumAll(s).Some?
    ensures forall i :: 0 <= i < |s| ==> s[i].Some?
  {
    if |s| > 0 {
      SumAllPresent(s[..|s| - 1]);
      forall i | 0 <= i < |s| - 1
        ensures s[i].Some?
      {
        assert s[..|s| - 1][i] == s[i];
      }
    }
  }

  /** A sum whose every term is c is |s| copies of c. */
  lemma {:induction false} SumAllConstant(s: seq<Option<Vec3>>, c: Vec3)
    requires forall i :: 0 <= i < |s| ==> s[i] == Some(c)
    ensures SumAll(s) == Some(Repeat(c, |s|))
  {
    if |s| > 0 {
      SumAllConstant(s[..|s| - 1], c);
    }
  }

  // ---------------------------------------------------------------------------
  // The radiance, as functions

  /** `computeColor` with the given fuel. */
  function PathColor(ctx: Context, r: Ray, key: Key, fuel: nat): Option<Vec3>
    decreases fuel, 2
  {
    if fuel == 0 then None
    else
      match ctx.isect(r)
      case None => Some(ctx.bg)
      case Some(its) =>
        var emitted := EmissiveRadiance(its.material);
        if r.depth >= MaxDepth then Some(emitted)
        else
          var wo := Neg(r.d);
          var n := its.normal;
          match Dispatch(its.material)
          case SpecularBranch =>
            PathColor(ctx, Ray(its.point, ctx.lib.normalized(MirrorDirection(wo, n)), r.depth), key + [0], fuel - 1)
          case TransmissionBranch =>
            var t := Transmit(ctx.lib, wo, n, IndexOfRefraction(its.material));
            var depth := if t.TotalInternalReflection? then r.depth + 1 else r.depth;
            PathColor(ctx, Ray(its.point, ctx.lib.normalized(t.dir), depth), key + [0], fuel - 1)
          case DiffuseBranch =>
            var N := SampleCount(r.depth);
            (match SumAll(PathSamples(ctx, its, wo, n, r.depth, key, N, fuel))
             case None => None
             case Some(lo) => Some(Add(emitted, Scale(lo, 1.0 / N as real))))
          case NoBranch => Some(emitted)
  }

  /** The N hemisphere samples, in drawing order. */
  function PathSamples(ctx: Context, its: Intersection, wo: Vec3, n: Vec3, depth: nat, key: Key, N: nat, fuel: nat)
    : seq<Option<Vec3>>
    requires fuel > 0
    decreases fuel, 1
  {
    seq(N, i requires 0 <= i < N => PathSample(ctx, its, wo, n, depth, key, i, fuel))
  }

  /** Sample i: `Li * fr * max(0, wi . n) * 2 * pi`, with Li the colour one level deeper along wi. */
  function PathSample(ctx: Context, its: Intersection, wo: Vec3, n: Vec3, depth: nat, key: Key, i: nat, fuel: nat)
    : Option<Vec3>
    requires fuel > 0
    decreases fuel, 0
  {
    var wi := ctx.hemisphere(n, key + [i]);
    var fr := Reflectance(ctx.lib, its.material, n, wo, wi);
    match PathColor(ctx, Ray(its.point, wi, depth + 1), key + [i], fuel - 1)
    case None => None
    case Some(li) => Some(Scale(Scale(Scale(ctx.lib.mul(li, fr), MaxZero(Dot(wi, n))), 2.0), Pi))
  }

  // ---------------------------------------------------------------------------
  // The integrator's code, given the same fuel

  method ComputeColor(ctx: Context, r: Ray, key: Key, fuel: nat) returns (color: Option<Vec3>)
    ensures color == PathColor(ctx, r, key, fuel)
    decreases fuel, 4
  {
    if fuel == 0 {
      return None;
    }
    var hit := ctx.isect(r);
    if hit.None? {
      return Some(ctx.bg);
    }
    var its := hit.value;
    var emitted := EmissiveRadiance(its.material);
    if r.depth >= MaxDepth {
      return Some(emitted);
    }
    color := BranchRadiance(ctx, r, its, key, fuel, emitted);
  }

  /** Below the depth cap: the branch the material's flags select. */
  method BranchRadiance(ctx: Context, r: Ray, its: Intersection, key: Key, fuel: nat, emitted: Vec3)
    returns (color: Option<Vec3>)
    requires fuel > 0 && ctx.isect(r) == Some(its) && r.depth < MaxDepth
    requires emitted == EmissiveRadiance(its.material)
    ensures color == PathColor(ctx, r, key, fuel)
    decreases fuel, 3
  {
    var wo := Neg(r.d);
    var n := its.normal;
    var material := its.material;
    if HasSpecular(material) {
      var wr := ctx.lib.normalized(MirrorDirection(wo, n));
      color := ComputeColor(ctx, Ray(its.point, wr, r.depth), key + [0], fuel - 1);
    } else if HasTransmission(material) {
      var t := Transmit(ctx.lib, wo, n, IndexOfRefraction(material));
      if t.TotalInternalReflection? {
        color := ComputeColor(ctx, Ray(its.point, ctx.lib.normalized(t.dir), r.depth + 1), key + [0], fuel - 1);
      } else {
        color := ComputeColor(ctx, Ray(its.point, ctx.lib.normalized(t.dir), r.depth), key + [0], fuel - 1);
      }
    } else if HasDiffuseOrGlossy(material) {
      color := DiffuseRadiance(ctx, its, wo, n, r.depth, key, fuel, emitted);
    } else {
      color := Some(emitted);
    }
  }

  /** The diffuse/glossy branch: `color += Lo / N` after the sample loop. */
  method DiffuseRadiance(ctx: Context, its: Intersection, wo: Vec3, n: Vec3, depth: nat, key: Key, fuel: nat, emitted: Vec3)
    returns (color: Option<Vec3>)
    requires fuel > 0
    ensures var N := SampleCount(depth);
            color == match SumAll(PathSamples(ctx, its, wo, n, depth, key, N, fuel))
                     case None => None
                     case Some(lo) => Some(Add(emitted, Scale(lo, 1.0 / N as real)))
    decreases fuel, 2
  {
    var N := 256;
    if depth >= 1 {
      N := 1;
    }
    var lo := HemisphereEstimate(ctx, its, wo, n, depth, key, N, fuel);
    if lo.None? {
      return None;
    }
    color := Some(Add(emitted, Scale(lo.value, 1.0 / N as real)));
  }

  /** The sample loop: `Lo` accumulates the N samples in drawing order. */
  method HemisphereEstimate(ctx: Context, its: Intersection, wo: Vec3, n: Vec3, depth: nat, key: Key, N: nat, fuel: nat)
    returns (lo: Option<Vec3>)
    requires fuel > 0
    ensures lo == SumAll(PathSamples(ctx, its, wo, n, depth, key, N, fuel))
    decreases fuel, 1
  {
    ghost var samples := PathSamples(ctx, its, wo, n, depth, key, N, fuel);
    var acc := Zero;
    for i := 0 to N
      invariant SumAll(samples[..i]) == Some(acc)
    {
      var sample := PathSampleRadiance(ctx, its, wo, n, depth, key, i, fuel);
      SumAllStep(samples, i, acc);
      if sample.None? {
        SumAllMissing(samples, i + 1);
        return None;
      }
      acc := Add(acc, sample.value);
    }
    assert samples[..N] == samples;
    lo := Some(acc);
  }

  method PathSampleRadiance(ctx: Context, its: Intersection, wo: Vec3, n: Vec3, depth: nat, key: Key, i: nat, fuel: nat)
    returns (sample: Option<Vec3>)
    requires fuel > 0
    ensures sample == PathSample(ctx, its, wo, n, depth, key, i, fuel)
    decreases fuel, 0
  {
    var wi := ctx.hemisphere(n, key + [i]);
    var fr := Reflectance(ctx.lib, its.material, n, wo, wi);
    var li := ComputeColor(ctx, Ray(its.point, wi, depth + 1), key + [i], fuel - 1);
    if li.None? {
      return None;
    }
    var costheta := MaxZero(Dot(wi, n));
    sample := Some(Scale(Scale(Scale(ctx.lib.mul(li.value, fr), costheta), 2.0), Pi));
  }

  // ---------------------------------------------------------------------------
  // Properties

  /** A ray that hits nothing returns the background colour. */
  lemma MissIsBackground(ctx: Context, r: Ray, key: Key, fuel: nat)
    requires fuel > 0
    requires ctx.isect(r).None?
    ensures PathColor(ctx, r, key, fuel) == Some(ctx.bg)
  {
  }

  /** A hit at depth 5 or more returns exactly its emission. */
  lemma DepthCapReturnsEmission(ctx: Context, r: Ray, key: Key, fuel: nat)
    requires fuel > 0
    requires ctx.isect(r).Some? && r.depth >= MaxDepth
    ensures PathColor(ctx, r, key, fuel) == Some(EmissiveRadiance(ctx.isect(r).value.material))
  {
  }

  /**
    The mirror branch returns exactly the colour along the mirror direction,
    at the same depth: the hit's own emission is dropped.
   */
  lemma MirrorKeepsDepthAndDropsEmission(ctx: Context, r: Ray, key: Key, fuel: nat)
    requires fuel > 0
    requires ctx.isect(r).Some? && r.depth < MaxDepth && HasSpecular(ctx.isect(r).value.material)
    ensures var its := ctx.isect(r).value;
            PathColor(ctx, r, key, fuel)
            == PathColor(ctx, Ray(its.point, ctx.lib.normalized(MirrorDirection(Neg(r.d), its.normal)), r.depth),
                         key + [0], fuel - 1)
  {
  }

  /**
    The refraction branch (transmission flag, no specular flag) returns
    exactly the colour one step further, one level deeper only on total
    internal reflection.
   */
  lemma RefractionKeepsDepthAndDropsEmission(ctx: Context, r: Ray, key: Key, fuel: nat)
    requires fuel > 0
    requires ctx.isect(r).Some? && r.depth < MaxDepth
    requires !HasSpecular(ctx.isect(r).value.material) && HasTransmission(ctx.isect(r).value.material)
    ensures var its := ctx.isect(r).value;
            var t := Transmit(ctx.lib, Neg(r.d), its.normal, IndexOfRefraction(its.material));
            PathColor(ctx, r, key, fuel)
            == PathColor(ctx, Ray(its.point, ctx.lib.normalized(t.dir), if t.TotalInternalReflection? then r.depth + 1 else r.depth),
                         key + [0], fuel - 1)
  {
  }

  /**
    In a scene where every ray hits a Mirror, a ray below depth 5 never
    finishes: the mirror branch keeps the depth, so no amount of fuel is enough.
   */
  lemma {:induction false} MirrorCorridorNeverEnds(ctx: Context, r: Ray, key: Key, fuel: nat)
    requires forall ray: Ray :: ctx.isect(ray).Some? && ctx.isect(ray).value.material.Mirror?
    requires r.depth < MaxDepth
    ensures PathColor(ctx, r, key, fuel) == None
    decreases fuel
  {
    if fuel > 0 {
      var its := ctx.isect(r).value;
      MirrorAndTransmissiveReflect(its.material);
      MirrorCorridorNeverEnds(ctx, Ray(its.point, ctx.lib.normalized(MirrorDirection(Neg(r.d), its.normal)), r.depth),
                              key + [0], fuel - 1);
    }
  }

  /** Fuel only decides whether the recursion finishes, never the colour: more fuel gives the same colour. */
  lemma {:induction false} MoreFuelSameColor(ctx: Context, r: Ray, key: Key, fuel: nat)
    requires PathColor(ctx, r, key, fuel).Some?
    ensures PathColor(ctx, r, key, fuel + 1) == PathColor(ctx, r, key, fuel)
    decreases fuel, 1
  {
    if ctx.isect(r).Some? && r.depth < MaxDepth {
      var its := ctx.isect(r).value;
      var wo := Neg(r.d);
      match Dispatch(its.material)
      case SpecularBranch =>
        MoreFuelSameColor(ctx, Ray(its.point, ctx.lib.normalized(MirrorDirection(wo, its.normal)), r.depth), key + [0], fuel - 1);
      case TransmissionBranch =>
        var t := Transmit(ctx.lib, wo, its.normal, IndexOfRefraction(its.material));
        var depth := if t.TotalInternalReflection? then r.depth + 1 else r.depth;
        MoreFuelSameColor(ctx, Ray(its.point, ctx.lib.normalized(t.dir), depth), key + [0], fuel - 1);
      case DiffuseBranch =>
        MoreFuelSameSamples(ctx, its, wo, its.normal, r.depth, key, SampleCount(r.depth), fuel);
      case NoBranch =>
    }
  }

  lemma MoreFuelSameSamples(ctx: Context, its: Intersection, wo: Vec3, n: Vec3, depth: nat, key: Key, N: nat, fuel: nat)
    requires fuel > 0
    requires SumAll(PathSamples(ctx, its, wo, n, depth, key, N, fuel)).Some?
    ensures PathSamples(ctx, its, wo, n, depth, key, N, fuel + 1) == PathSamples(ctx, its, wo, n, depth, key, N, fuel)
    decreases fuel, 0
  {
    var s := PathSamples(ctx, its, wo, n, depth, key, N, fuel);
    var s1 := PathSamples(ctx, its, wo, n, depth, key, N, fuel + 1);
    SumAllPresent(s);
    forall i | 0 <= i < N
      ensures s1[i] == s[i]
    {
      assert s[i] == PathSample(ctx, its, wo, n, depth, key, i, fuel);
      assert s1[i] == PathSample(ctx, its, wo, n, depth, key, i, fuel + 1);
      var wi := ctx.hemisphere(n, key + [i]);
      MoreFuelSameColor(ctx, Ray(its.point, wi, depth + 1), key + [i], fuel - 1);
    }
  }

  /**
    The 2 pi weight and the final `Lo / N`: when every sample's integrand
    `Li * fr * max(0, wi . n)` is the same vector w, a diffuse hit's colour is
    its emission plus 2 pi w, whatever N is.
   */
  lemma UniformSamplesGiveTwoPi(ctx: Context, r: Ray, key: Key, fuel: nat, w: Vec3)
    requires fuel > 0
    requires ctx.isect(r).Some? && r.depth < MaxDepth
    requires Dispatch(ctx.isect(r).value.material) == DiffuseBranch
    requires forall i :: 0 <= i < SampleCount(r.depth) ==>
               var its := ctx.isect(r).value;
               var wi := ctx.hemisphere(its.normal, key + [i]);
               var li := PathColor(ctx, Ray(its.point, wi, r.depth + 1), key + [i], fuel - 1);
               li.Some? &&
               Scale(ctx.lib.mul(li.value, Reflectance(ctx.lib, its.material, its.normal, Neg(r.d), wi)),
                     MaxZero(Dot(wi, its.normal))) == w
    ensures PathColor(ctx, r, key, fuel)
         == Some(Add(EmissiveRadiance(ctx.isect(r).value.material), Scale(w, 2.0 * Pi)))
  {
    var its := ctx.isect(r).value;
    var N := SampleCount(r.depth);
    UniformPathSamples(ctx, its, Neg(r.d), r.depth, key, N, fuel, w);
    AveragedTwoPiWeight(w, N);
  }

  lemma UniformPathSamples(ctx: Context, its: Intersection, wo: Vec3, depth: nat, key: Key, N: nat, fuel: nat, w: Vec3)
    requires fuel > 0
    requires forall i :: 0 <= i < N ==>
               var wi := ctx.hemisphere(its.normal, key + [i]);
               var li := PathColor(ctx, Ray(its.point, wi, depth + 1), key + [i], fuel - 1);
               li.Some? &&
               Scale(ctx.lib.mul(li.value, Reflectance(ctx.lib, its.material, its.normal, wo, wi)),
                     MaxZero(Dot(wi, its.normal))) == w
    ensures SumAll(PathSamples(ctx, its, wo, its.normal, depth, key, N, fuel)) == Some(Repeat(Scale(Scale(w, 2.0), Pi), N))
  {
    var s := PathSamples(ctx, its, wo, its.normal, depth, key, N, fuel);
    var c := Scale(Scale(w, 2.0), Pi);
    forall i | 0 <= i < N
      ensures s[i] == Some(c)
    {
      assert s[i] == PathSample(ctx, its, wo, its.normal, depth, key, i, fuel);
    }
    SumAllConstant(s, c);
  }
}
