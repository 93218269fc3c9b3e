/**
  WhittedIntegrator: one pass over the lights, no recursion and no material
  dispatch. Each light adds the ambient term `kd * 0.2` and its direct term
  `Li * fr * costheta * V`. The visibility flag `V` starts at 0 and is only
  reassigned when the shadow ray hits something, so a light whose shadow ray
  escapes reuses the previous light's `V`.
 */
module Whitted {
  import opened Vectors
  import opened Materials
  import opened Lights
  import opened Scene

  /** How far along the normal the shadow ray starts. */
  const ShadowOffset: real := 0.0001

  /** The light position of light i at this hit. */
  function LightPosition(ctx: Context, i: nat, key: Key): Vec3 {
    ctx.lightPosition(i, key + [i])
  }

  /** The shadow ray towards light i, from just above the hit along n. */
  function ShadowRay(ctx: Context, its: Intersection, n: Vec3, i: nat, key: Key): Ray {
    var lightPos := LightPosition(ctx, i, key);
    Ray(Add(its.point, Scale(n, ShadowOffset)), ctx.lib.normalized(Sub(lightPos, its.point)), 0)
  }

  /**
    `V` after the shadow ray of light i: unchanged when the ray hits nothing;
    otherwise 0 exactly when the obstacle is strictly closer to the hit point
    than the light, and 1 when it is not.
   */
  function Visibility(ctx: Context, its: Intersection, n: Vec3, i: nat, key: Key, previous: int): (v: int)
    ensures ctx.isect(ShadowRay(ctx, its, n, i, key)).None? ==> v == previous
  {
    var lightPos := LightPosition(ctx, i, key);
    match ctx.isect(ShadowRay(ctx, its, n, i, key))
    case None => previous
    case Some(obstacle) =>
      if Length(ctx.lib, Sub(obstacle.point, its.point)) < Length(ctx.lib, Sub(lightPos, its.point)) then 0 else 1
  }

  /** `V` after the first k lights, starting from 0. */
  function VisibilityAfter(ctx: Context, its: Intersection, n: Vec3, key: Key, k: nat): int
    requires k <= |ctx.lights|
  {
    if k == 0 then 0
    else Visibility(ctx, its, n, k - 1, key, VisibilityAfter(ctx, its, n, key, k - 1))
  }

  /** What light i adds for visibility V: `kd * ambient + Li * fr * costheta * V`. */
  function LightTerm(ctx: Context, its: Intersection, wo: Vec3, n: Vec3, i: nat, key: Key, V: int): Vec3
    requires i < |ctx.lights|
  {
    var wi := ctx.lib.normalized(Sub(LightPosition(ctx, i, key), its.point));
    var costheta := MaxZero(Dot(wi, n));
    var fr := Reflectance(ctx.lib, its.material, n, wo, wi);
    var li := GetIntensity(ctx.lights[i]);
    Add(ctx.lib.mul(DiffuseReflectance(its.material), Ambient), Scale(Scale(ctx.lib.mul(li, fr), costheta), V as real))
  }

  /** `Lo` after the first k lights. */
  function Radiance(ctx: Context, its: Intersection, wo: Vec3, n: Vec3, key: Key, k: nat): Vec3
    requires k <= |ctx.lights|
  {
    if k == 0 then Zero
    else Add(Radiance(ctx, its, wo, n, key, k - 1),
             LightTerm(ctx, its, wo, n, k - 1, key, VisibilityAfter(ctx, its, n, key, k)))
  }

  /** `computeColor`: the background on a miss, `Lo` over all lights on a hit. */
  function Color(ctx: Context, r: Ray, key: Key): Vec3 {
    match ctx.isect(r)
    case None => ctx.bg
    case Some(its) =>
      Radiance(ctx, its, Neg(ctx.lib.normalized(r.d)), ctx.lib.normalized(its.normal), key, |ctx.lights|)
  }

  // ---------------------------------------------------------------------------
  // The integrator's code

  method ComputeColor(ctx: Context, r: Ray, key: Key) returns (color: Vec3)
    ensures color == Color(ctx, r, key)
  {
    var hit := ctx.isect(r);
    if hit.None? {
      return ctx.bg;
    }
    var its := hit.value;
    var wo := Neg(ctx.lib.normalized(r.d));
    var n := ctx.lib.normalized(its.normal);
    var Lo := Zero;
    var V := 0;
    for i := 0 to |ctx.lights|
      invariant V == VisibilityAfter(ctx, its, n, key, i)
      invariant Lo == Radiance(ctx, its, wo, n, key, i)
    {
      var term;
      V, term := LightStep(ctx, its, wo, n, i, key, V);
      Lo := Add(Lo, term);
    }
    color := Lo;
  }

  /** One iteration: the shadow-ray test updates V, then the light's term is computed with it. */
  method LightStep(ctx: Context, its: Intersection, wo: Vec3, n: Vec3, i: nat, key: Key, V0: int)
    returns (V: int, term: Vec3)
    requires i < |ctx.lights|
    ensures V == Visibility(ctx, its, n, i, key, V0)
    ensures term == LightTerm(ctx, its, wo, n, i, key, V)
  {
    V := V0;
    var lightPos := ctx.lightPosition(i, key + [i]);
    var wi := ctx.lib.normalized(Sub(lightPos, its.point));
    var costheta := MaxZero(Dot(wi, n));
    var shadowRay := Ray(Add(its.point, Scale(n, ShadowOffset)), wi, 0);
    var shadowIts := ctx.isect(shadowRay);
    if shadowIts.Some? {
      var distPointToLight := Length(ctx.lib, Sub(lightPos, its.point));
      var distPointToObstacle := Length(ctx.lib, Sub(shadowIts.value.point, its.point));
      if distPointToObstacle < distPointToLight {
        V := 0;
      } else {
        V := 1;
      }
    }
    var fr := Reflectance(ctx.lib, its.material, n, wo, wi);
    var li := GetIntensity(ctx.lights[i]);
    var kd := DiffuseReflectance(its.material);
    term := Add(ctx.lib.mul(kd, Ambient), Scale(Scale(ctx.lib.mul(li, fr), costheta), V as real));
  }

  // ---------------------------------------------------------------------------
  // Properties

  /** A ray that hits nothing returns the background colour. */
  lemma MissIsBackground(ctx: Context, r: Ray, key: Key)
    requires ctx.isect(r).None?
    ensures Color(ctx, r, key) == ctx.bg
  {
  }

  /** A hit in a scene without lights is black: not even the ambient term is added. */
  lemma NoLightsIsBlack(ctx: Context, r: Ray, key: Key)
    requires ctx.isect(r).Some?
    requires ctx.lights == []
    ensures Color(ctx, r, key) == Zero
  {
  }

  /** V only ever holds 0 or 1. */
  lemma {:induction false} VisibilityIsFlag(ctx: Context, its: Intersection, n: Vec3, key: Key, k: nat)
    requires k <= |ctx.lights|
    ensures VisibilityAfter(ctx, its, n, key, k) == 0 || VisibilityAfter(ctx, its, n, key, k) == 1
  {
    if k > 0 {
      VisibilityIsFlag(ctx, its, n, key, k - 1);
    }
  }

  /**
    V carries over: a light whose shadow ray escapes uses the V of the light
    before it, so the first light's V is 0 unless its shadow ray hits.
   */
  lemma EscapingShadowRayKeepsVisibility(ctx: Context, its: Intersection, n: Vec3, key: Key, i: nat)
    requires i < |ctx.lights|
    requires ctx.isect(ShadowRay(ctx, its, n, i, key)).None?
    ensures VisibilityAfter(ctx, its, n, key, i + 1) == VisibilityAfter(ctx, its, n, key, i)
    ensures i == 0 ==> VisibilityAfter(ctx, its, n, key, 1) == 0
  {
  }

  /**
    When every shadow ray escapes the scene, V stays 0 for every light: no
    direct light is added at all.
   */
  lemma {:induction false} EscapingShadowRaysLeaveVisibilityZero(ctx: Context, its: Intersection, n: Vec3, key: Key, k: nat)
    requires k <= |ctx.lights|
    requires forall i :: 0 <= i < k ==> ctx.isect(ShadowRay(ctx, its, n, i, key)).None?
    ensures VisibilityAfter(ctx, its, n, key, k) == 0
  {
    if k > 0 {
      EscapingShadowRaysLeaveVisibilityZero(ctx, its, n, key, k - 1);
    }
  }

  /** With V at 0 a light adds only its ambient term. */
  lemma DarkLightIsAmbient(ctx: Context, its: Intersection, wo: Vec3, n: Vec3, i: nat, key: Key)
    requires i < |ctx.lights|
    ensures LightTerm(ctx, its, wo, n, i, key, 0) == ctx.lib.mul(DiffuseReflectance(its.material), Ambient)
  {
    var wi := ctx.lib.normalized(Sub(LightPosition(ctx, i, key), its.point));
    var direct := Scale(ctx.lib.mul(GetIntensity(ctx.lights[i]), Reflectance(ctx.lib, its.material, n, wo, wi)),
                        MaxZero(Dot(wi, n)));
    assert Scale(direct, 0.0) == Zero;
    AddZero(ctx.lib.mul(DiffuseReflectance(its.material), Ambient));
  }

  /**
    When V is 0 for every light, the colour is the ambient term once per
    light: `kd * 0.2` scaled by the number of lights.
   */
  lemma {:induction false} AllDarkIsAmbientPerLight(ctx: Context, its: Intersection, wo: Vec3, n: Vec3, key: Key, k: nat)
    requires k <= |ctx.lights|
    requires forall j :: 1 <= j <= k ==> VisibilityAfter(ctx, its, n, key, j) == 0
    ensures Radiance(ctx, its, wo, n, key, k) == Repeat(ctx.lib.mul(DiffuseReflectance(its.material), Ambient), k)
  {
    if k > 0 {
      AllDarkIsAmbientPerLight(ctx, its, wo, n, key, k - 1);
      DarkLightIsAmbient(ctx, its, wo, n, k - 1, key);
    }
  }

  /**
    Every light is an AreaLightSource, whose `sampleLightPosition` is a stub
    returning the origin: every light's shadow ray is then the same ray towards
    the origin, so every light gets the V of the first light.
   */
  lemma {:induction false} StubSamplerSharesVisibility(ctx: Context, its: Intersection, n: Vec3, key: Key, k: nat)
    requires 1 <= k <= |ctx.lights|
    requires forall i, q :: 0 <= i < |ctx.lights| ==> ctx.lightPosition(i, q) == SampleLightPosition(ctx.lights[i])
    ensures ShadowRay(ctx, its, n, k - 1, key)
         == Ray(Add(its.point, Scale(n, ShadowOffset)), ctx.lib.normalized(Sub(Zero, its.point)), 0)
    ensures VisibilityAfter(ctx, its, n, key, k) == VisibilityAfter(ctx, its, n, key, 1)
  {
    assert LightPosition(ctx, k - 1, key) == Zero;
    if k > 1 {
      StubSamplerSharesVisibility(ctx, its, n, key, k - 1);
      assert ShadowRay(ctx, its, n, k - 1, key) == ShadowRay(ctx, its, n, k - 2, key);
      assert LightPosition(ctx, k - 1, key) == LightPosition(ctx, 0, key);
    }
  }

  /**
    In a scene where no shadow ray hits anything, a hit's colour is
    `|lights| * kd * 0.2`: the lights' direct terms never count.
   */
  lemma UnoccludedSceneIsAmbientOnly(ctx: Context, r: Ray, key: Key)
    requires ctx.isect(r).Some?
    requires forall i :: 0 <= i < |ctx.lights| ==>
               var its := ctx.isect(r).value;
               ctx.isect(ShadowRay(ctx, its, ctx.lib.normalized(its.normal), i, key)).None?
    ensures var kd := DiffuseReflectance(ctx.isect(r).value.material);
            Color(ctx, r, key) == Scale(ctx.lib.mul(kd, Ambient), |ctx.lights| as real)
  {
    var its := ctx.isect(r).value;
    var n := ctx.lib.normalized(its.normal);
    forall j | 1 <= j <= |ctx.lights|
      ensures VisibilityAfter(ctx, its, n, key, j) == 0
    {
      EscapingShadowRaysLeaveVisibilityZero(ctx, its, n, key, j);
    }
    AllDarkIsAmbientPerLight(ctx, its, Neg(ctx.lib.normalized(r.d)), n, key, |ctx.lights|);
    RepeatIsScale(ctx.lib.mul(DiffuseReflectance(its.material), Ambient), |ctx.lights|);
  }
}
