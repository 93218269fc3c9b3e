/**
  The next-event (direct light) estimator, written identically in both NEE
  integrators: five samples per light, each weighted by the geometric term,
  the light's area and 1/5, and kept only when its shadow ray is unblocked.
 */
module DirectLighting {
  import opened Vectors
  import opened Materials
  import opened Lights
  import opened Scene

  const SamplesPerLight: nat := 5

  /** The light position drawn for the j-th sample of light i at the hit identified by key. */
  function SamplePosition(ctx: Context, i: nat, key: Key, j: nat): Vec3 {
    ctx.lightPosition(i, key + [j])
  }

  /**
    `max(0, wi . n) * max(0, -wi . nL) / |lightPos - x|^2` with wi the unit
    direction from x to the light: never negative.
   */
  function GeometricTerm(lib: MathLib, x: Vec3, n: Vec3, lightPos: Vec3, lightNormal: Vec3): (g: real)
    ensures 0.0 <= g
  {
    var wi := lib.normalized(Sub(lightPos, x));
    var d := Length(lib, Sub(lightPos, x));
    var cosines := MaxZero(Dot(wi, n)) * MaxZero(Dot(Neg(wi), lightNormal));
    MulNonNegative(MaxZero(Dot(wi, n)), MaxZero(Dot(Neg(wi), lightNormal)));
    assert 0.0 <= d * d by {
      if d < 0.0 { MulNonNegative(-d, -d); } else { MulNonNegative(d, d); }
    }
    Div(cosines, d * d)
  }

  /**
    The shadow-ray test from x towards the light: visible when the ray hits
    nothing or its nearest hit is not strictly closer than the light.
   */
  predicate Visible(ctx: Context, x: Vec3, wi: Vec3, lightPos: Vec3) {
    match ctx.isect(Ray(x, wi, 0))
    case None => true
    case Some(obstacle) =>
      !(Length(ctx.lib, Sub(obstacle.point, x)) < Length(ctx.lib, Sub(lightPos, x)))
  }

  /** What the j-th sample of light i adds: `(1/5) Le fr G area` when visible, nothing otherwise. */
  function SampleContribution(ctx: Context, its: Intersection, wo: Vec3, i: nat, key: Key, j: nat): Vec3
    requires i < |ctx.lights|
  {
    var light := ctx.lights[i];
    var lightPos := SamplePosition(ctx, i, key, j);
    var wi := ctx.lib.normalized(Sub(lightPos, its.point));
    if Visible(ctx, its.point, wi, lightPos) then
      var fr := Reflectance(ctx.lib, its.material, its.normal, wo, wi);
      var g := GeometricTerm(ctx.lib, its.point, its.normal, lightPos, GetNormal(light));
      Scale(Scale(Scale(ctx.lib.mul(GetIntensity(light), fr), g), 1.0 / SamplesPerLight as real), GetArea(light))
    else
      Zero
  }

  /** The first j samples of light i, added in order. */
  function LightSum(ctx: Context, its: Intersection, wo: Vec3, i: nat, key: Key, j: nat): Vec3
    requires i < |ctx.lights|
  {
    if j == 0 then Zero
    else Add(LightSum(ctx, its, wo, i, key, j - 1), SampleContribution(ctx, its, wo, i, key, j - 1))
  }

  /** All samples of the first k lights, added in order. */
  function LightsSum(ctx: Context, its: Intersection, wo: Vec3, key: Key, k: nat): Vec3
    requires k <= |ctx.lights|
  {
    if k == 0 then Zero
    else Add(LightsSum(ctx, its, wo, key, k - 1), LightSum(ctx, its, wo, k - 1, key, SamplesPerLight))
  }

  /** The direct radiance at a hit seen from wo. */
  function Direct(ctx: Context, its: Intersection, wo: Vec3, key: Key): Vec3 {
    LightsSum(ctx, its, wo, key, |ctx.lights|)
  }

  /** `directRadiance`: the outer loop, over the lights. */
  method DirectRadiance(ctx: Context, its: Intersection, wo: Vec3, key: Key) returns (color: Vec3)
    ensures color == Direct(ctx, its, wo, key)
  {
    color := Zero;
    for i := 0 to |ctx.lights|
      invariant color == LightsSum(ctx, its, wo, key, i)
    {
      var fromLight := LightRadiance(ctx, its, wo, i, key);
      color := Add(color, fromLight);
    }
  }

  /**
    The inner loop of `directRadiance`, over the five samples of light i:
    a sample is added only when its shadow ray left the visibility term at 1.
   */
  method LightRadiance(ctx: Context, its: Intersection, wo: Vec3, i: nat, key: Key) returns (color: Vec3)
    requires i < |ctx.lights|
    ensures color == LightSum(ctx, its, wo, i, key, SamplesPerLight)
  {
    color := Zero;
    for j := 0 to SamplesPerLight
      invariant color == LightSum(ctx, its, wo, i, key, j)
    {
      var V, contribution := SampleRadiance(ctx, its, wo, i, key, j);
      if V == 1 {
        color := Add(color, contribution);
      } else {
        AddZero(color);
      }
    }
  }

  /**
    One sample of light i: the visibility term `V`, set afresh from the
    shadow ray towards the sampled position, and what the sample adds,
    `(1/5) Le fr G area` when V is 1 and nothing otherwise.
   */
  method SampleRadiance(ctx: Context, its: Intersection, wo: Vec3, i: nat, key: Key, j: nat)
    returns (V: int, contribution: Vec3)
    requires i < |ctx.lights|
    ensures var lightPos := SamplePosition(ctx, i, key, j);
            V == if Visible(ctx, its.point, ctx.lib.normalized(Sub(lightPos, its.point)), lightPos) then 1 else 0
    ensures contribution == SampleContribution(ctx, its, wo, i, key, j)
  {
    var n := its.normal;
    var light := ctx.lights[i];
    var lightPos := ctx.lightPosition(i, key + [j]);
    var wi := ctx.lib.normalized(Sub(lightPos, its.point));
    var geometricTerm := GeometricTerm(ctx.lib, its.point, n, lightPos, GetNormal(light));
    var shadowIts := ctx.isect(Ray(its.point, wi, 0));
    if shadowIts.Some? {
      var distItsToLight := Length(ctx.lib, Sub(lightPos, its.point));
      var distItsToObstacle := Length(ctx.lib, Sub(shadowIts.value.point, its.point));
      if distItsToObstacle < distItsToLight {
        V := 0;
      } else {
        V := 1;
      }
    } else {
      V := 1;
    }
    if V == 1 {
      var fr := Reflectance(ctx.lib, its.material, n, wo, wi);
      var Le := GetIntensity(light);
      contribution := Scale(Scale(Scale(ctx.lib.mul(Le, fr), geometricTerm), 1.0 / SamplesPerLight as real), GetArea(light));
    } else {
      contribution := Zero;
    }
  }

  /** Without lights there is no direct radiance. */
  lemma NoLightsNoDirect(ctx: Context, its: Intersection, wo: Vec3, key: Key)
    requires ctx.lights == []
    ensures Direct(ctx, its, wo, key) == Zero
  {
  }

  /** Samples that all contribute nothing add up to nothing. */
  lemma OccludedLightSum(ctx: Context, its: Intersection, wo: Vec3, i: nat, key: Key, j: nat)
    requires i < |ctx.lights|
    requires forall s :: 0 <= s < j ==> SampleContribution(ctx, its, wo, i, key, s) == Zero
    ensures LightSum(ctx, its, wo, i, key, j) == Zero
  {
    RepeatedLightSum(ctx, its, wo, i, key, j, Zero);
    RepeatIsScale(Zero, j);
    ScaleZero(j as real);
  }

  /**
    A sample contributes only through an unblocked shadow ray: when every
    shadow ray of every sample is blocked before its light, the direct
    radiance is black.
   */
  lemma {:induction false} OccludedHitHasNoDirect(ctx: Context, its: Intersection, wo: Vec3, key: Key)
    requires forall i, j :: 0 <= i < |ctx.lights| && 0 <= j < SamplesPerLight ==>
               !Visible(ctx, its.point, ctx.lib.normalized(Sub(SamplePosition(ctx, i, key, j), its.point)),
                        SamplePosition(ctx, i, key, j))
    ensures Direct(ctx, its, wo, key) == Zero
  {
    for k := 0 to |ctx.lights|
      invariant LightsSum(ctx, its, wo, key, k) == Zero
    {
      OccludedLightSum(ctx, its, wo, k, key, SamplesPerLight);
    }
  }

  lemma {:induction false} RepeatedLightSum(ctx: Context, its: Intersection, wo: Vec3, i: nat, key: Key, j: nat, c: Vec3)
    requires i < |ctx.lights|
    requires forall s :: 0 <= s < j ==> SampleContribution(ctx, its, wo, i, key, s) == c
    ensures LightSum(ctx, its, wo, i, key, j) == Repeat(c, j)
  {
    if j > 0 {
      RepeatedLightSum(ctx, its, wo, i, key, j - 1, c);
    }
  }

  /**
    The 1/5 weight makes the five-sample estimate exact when the light always
    yields the same position q: light i then contributes `Le fr G area` once,
    if q is visible, and nothing otherwise.
   */
  lemma {:induction false} FixedPositionAveragesExactly(ctx: Context, its: Intersection, wo: Vec3, i: nat, key: Key, q: Vec3)
    requires i < |ctx.lights|
    requires forall k :: ctx.lightPosition(i, k) == q
    ensures var wi := ctx.lib.normalized(Sub(q, its.point));
            var light := ctx.lights[i];
            LightSum(ctx, its, wo, i, key, SamplesPerLight)
            == if Visible(ctx, its.point, wi, q) then
                 Scale(Scale(ctx.lib.mul(GetIntensity(light), Reflectance(ctx.lib, its.material, its.normal, wo, wi)),
                             GeometricTerm(ctx.lib, its.point, its.normal, q, GetNormal(light))),
                       GetArea(light))
               else Zero
  {
    var wi := ctx.lib.normalized(Sub(q, its.point));
    var light := ctx.lights[i];
    var y := Scale(ctx.lib.mul(GetIntensity(light), Reflectance(ctx.lib, its.material, its.normal, wo, wi)),
                   GeometricTerm(ctx.lib, its.point, its.normal, q, GetNormal(light)));
    var c := if Visible(ctx, its.point, wi, q) then Scale(Scale(y, 1.0 / SamplesPerLight as real), GetArea(light)) else Zero;
    forall s | 0 <= s < SamplesPerLight
      ensures SampleContribution(ctx, its, wo, i, key, s) == c
    {
      assert SamplePosition(ctx, i, key, s) == q;
    }
    RepeatedLightSum(ctx, its, wo, i, key, SamplesPerLight, c);
    if Visible(ctx, its.point, wi, q) {
      var w := Scale(y, GetArea(light));
      ScaleCommutes(y, 1.0 / SamplesPerLight as real, GetArea(light));
      RepeatAverage(w, SamplesPerLight);
      assert LightSum(ctx, its, wo, i, key, SamplesPerLight) == w;
    } else {
      RepeatIsScale(c, SamplesPerLight);
      ScaleZero(SamplesPerLight as real);
      assert LightSum(ctx, its, wo, i, key, SamplesPerLight) == Zero;
    }
  }

  /**
    Every light is an AreaLightSource, whose `sampleLightPosition` is a stub
    returning the origin: each light then contributes once, as if sampled at
    the origin, with its five samples and their 1/5 weights collapsing.
   */
  lemma StubSamplerLightsFromOrigin(ctx: Context, its: Intersection, wo: Vec3, i: nat, key: Key)
    requires i < |ctx.lights|
    requires forall k :: ctx.lightPosition(i, k) == SampleLightPosition(ctx.lights[i])
    ensures var wi := ctx.lib.normalized(Sub(Zero, its.point));
            var light := ctx.lights[i];
            LightSum(ctx, its, wo, i, key, SamplesPerLight)
            == if Visible(ctx, its.point, wi, Zero) then
                 Scale(Scale(ctx.lib.mul(GetIntensity(light), Reflectance(ctx.lib, its.material, its.normal, wo, wi)),
                             GeometricTerm(ctx.lib, its.point, its.normal, Zero, GetNormal(light))),
                       GetArea(light))
               else Zero
  {
    FixedPositionAveragesExactly(ctx, its, wo, i, key, Zero);
  }
}
