# Radiance integrators of a teaching ray tracer, in Dafny

This project models the radiance core of a small C++ ray tracer. Each shader
has a `computeColor(ray, shapes, lights)` that returns the radiance reaching
the ray's origin. The project covers:

- the six integrators: `NEEImprovedIntegrator`, `NEEIntegrator`,
  `PurePathIntegrator`, `HemisphericalIntegrator`, `WhittedIntegrator` and
  `DepthShader`;
- the `Mirror` and `Transmissive` materials (and the earlier `Mirror` of the
  first stage);
- `AreaLightSource`.

All arithmetic is over `real`. A `Vector3D` is the datatype `Vectors.Vec3`.

Some collaborators enter as inputs, bundled in a `Scene.Context`:

- the closest-intersection query over the shape list;
- the hemisphere sampler;
- the light-position sampler, of which the program's stub
  `Lights.SampleLightPosition` is one instance;
- the background colour.

The unseen maths is bundled in `Vectors.MathLib`: `sqrt`, `pow` with a real
exponent, `normalized()` and the `Vector3D * Vector3D` product. A property
that needs something of these functions says so in its `requires`, e.g.
`SqrtSound` or `BlackAbsorbs`.

Each random draw is identified by a `Key`, the path of sample indices from
the camera ray down to the draw. So a sampler is a function, and any
sequence of draws can be replayed.

Each integrator file has the same layout:

- **Functions** define the radiance: `Color`, `Reflected`, `Indirect` and
  the hemisphere samples.
- **Methods** follow the C++ code: early returns, `for` loops that
  accumulate `Lind`, `Lo` or `color`, and the visibility flag `V`. Each
  method is proved to compute exactly its function.
- **Lemmas** state what the code promises about those functions.

Recursion is bounded as follows:

- The NEE integrators stop at depth 3, and every recursive call goes one
  level deeper. So their functions terminate on the measure `3 - depth`.
- `PurePathIntegrator` keeps the depth on mirror and refraction bounces.
- `HemisphericalIntegrator` carries no depth at all.
- Those last two are modelled with fuel: a result of `None` means the
  recursion had not ended when the fuel ran out. A lemma shows, for each of
  them, a scene where no amount of fuel is enough.

Behaviour kept as the code has it:

- `Transmissive` reports the specular flag and not the transmission flag.
  The three integrators that branch on the flags (`NEEImprovedIntegrator`,
  `PurePathIntegrator`, `HemisphericalIntegrator`) therefore mirror it and
  never refract it. `NEEIntegrator` gives it the hemisphere estimate like any
  other material, and `WhittedIntegrator` and `DepthShader` never look at the
  flags.
- `sampleLightPosition` is a stub that returns the origin. The five 1/5
  weighted light samples then collapse to one sample at the origin.
- `NEEIntegrator` takes 40 hemisphere samples at depth 0. Unlike
  `NEEImprovedIntegrator`, it has no material dispatch.
- Whitted's `V` is assigned only when the shadow ray hits something, so it
  carries over from one light to the next. Its ambient term is added once
  per light, not once per hit.
- `PurePathIntegrator` recurses with the ray's own depth on mirror and
  refraction bounces. Only total internal reflection and diffuse samples go
  one level deeper.
- The refraction step uses `mu = n_t / n_i` when the ray enters the object
  and `n_i / n_t` when it leaves. This is the reverse of the ratio in
  Snell's law. As a consequence, a ray entering a denser object at grazing
  incidence is totally reflected, and a ray leaving one never is.
- `Mirror::getReflectance` builds its lobe axis with the `Vector3D *
  Vector3D` product. With a componentwise product, that axis is not the
  mirror direction of `wi` for an oblique normal.

## Model

| member | source | states |
|---|---|---|
| Materials.NewMirror | src/materials/mirror.cpp:8-9 | the constructor stores Kd, Ks and alpha unchanged; the material is specular only, neither transmissive, diffuse nor emissive |
| Materials.NewTransmissive | src/materials/transmissive.cpp:11-12 | the four-argument constructor stores the index, Kd, Ks and alpha as the queries later return them; flags specular and not transmission |
| Materials.NewTransmissiveFromIndex | src/materials/transmissive.cpp:8-9 | the one-argument constructor stores the index that getIndexOfRefraction returns |
| Materials.HasSpecular | src/materials/mirror.h:17 | true for every Mirror and every Transmissive |
| Materials.HasTransmission | src/materials/transmissive.h:19 | false for Transmissive as well as Mirror |
| Materials.HasDiffuseOrGlossy | src/materials/mirror.h:19 | false for Mirror and Transmissive |
| Materials.IsEmissive | src/materials/transmissive.h:21 | false for Mirror and Transmissive |
| Materials.Dispatch | src/shaders/neeimprovedintegrator.cpp:113-190 | exactly one branch is chosen, specular tested first, then transmission, then diffuse/glossy, and none when no flag is set (each case as an if-and-only-if on the flags) |
| Materials.MirrorAndTransmissiveReflect | src/materials/transmissive.h:18-21 | both Mirror and Transmissive always take the specular (mirror) branch |
| Materials.MirrorReflectance | src/materials/mirror.cpp:12-22 | `rho_d / pi + Ks * pow(wo . wr, alpha)`: with Ks black only the diffuse part rho_d / pi remains |
| Materials.Reflectance | src/materials/transmissive.cpp:15-20 | a Transmissive reflects nothing for every n, wo, wi; a Mirror has the Mirror reflectance |
| Materials.IndexOfRefraction | src/materials/mirror.cpp:24-30 | a Mirror answers the sentinel -1, a Transmissive its stored index |
| Materials.EmissiveRadiance | src/materials/transmissive.cpp:28-31 | Mirror and Transmissive emit nothing |
| Materials.DiffuseReflectance | src/materials/mirror.cpp:39-42 | the stored rho_d is returned |
| Lights.GetIntensity | src/lightsources/arealightsource.cpp:9-12 | a light emits what its square's material emits (nothing for a mirror or transmissive square) |
| Lights.SampleLightPosition | src/lightsources/arealightsource.cpp:15-21 | the stub returns the origin for every light |
| Lights.Variate | src/lightsources/arealightsource.cpp:25-26 | a draw in [0, RAND_MAX] scaled by 1/RAND_MAX lies in [0, 1]; draws 0 and RAND_MAX give 0 and 1 |
| Lights.GenerateRandomPosition | src/lightsources/arealightsource.cpp:23-32 | the point lies in the closed parallelogram spanned by corner, v1 and v2; the extreme draws give corner and corner + v1 + v2 |
| Part1Mirror.Reflectance | Part1/src/materials/mirror.cpp:12-17 | black for every n, wo, wi |
| Part1Mirror.IndexOfRefraction | Part1/src/materials/mirror.cpp:19-25 | the negative sentinel -1 |
| Part1Mirror.EmissiveRadiance | Part1/src/materials/mirror.cpp:28-31 | black |
| Part1Mirror.DiffuseReflectance | Part1/src/materials/mirror.cpp:34-37 | the stored rho_d |
| Optics.MirrorLaw | src/shaders/neeimprovedintegrator.cpp:116 | for a unit normal, `wr = 2 (wo . n) n - wo` makes the same angle with n as wo and has the same length |
| Optics.MirrorInvolution | src/shaders/neeimprovedintegrator.cpp:116 | mirroring twice about a unit normal gives back wo |
| Optics.Orient | src/shaders/neeimprovedintegrator.cpp:126-137 | after the enter/exit test the normal faces wo (`n . wo >= 0`) and has the same length; on exit it is flipped and mu = n_i / n_t, on entry it is kept and mu = n_t / n_i |
| Optics.EntryAndExitRatiosAreReciprocal | src/shaders/neeimprovedintegrator.cpp:132-137 | for a non-zero index, the ratios used for opposite directions through the same surface multiply to 1 |
| Optics.Transmit | src/shaders/neeimprovedintegrator.cpp:139-158 | total internal reflection happens exactly when `1 - mu^2 (1 - (n . wo)^2) < 0`, and then follows the mirror direction about the facing normal |
| Optics.NoBendingAtMatchedIndex | src/shaders/neeimprovedintegrator.cpp:152 | with n_t = n_i = 1 the refracted direction is exactly -wo, on entry and on exit (given a sound square root) |
| Optics.NoTotalReflectionWhenRatioAtMostOne | src/shaders/neeimprovedintegrator.cpp:140-142 | with mu^2 <= 1 and (n . wo)^2 <= 1 the discriminant is never negative |
| Optics.ExitNeverReflectsTotally | src/shaders/neeimprovedintegrator.cpp:132-142 | a ray leaving an object of index at least 1 always refracts |
| Optics.GrazingEntryReflectsTotally | src/shaders/neeimprovedintegrator.cpp:137-148 | a ray entering an object of index above 1 at grazing incidence is totally reflected straight back along -wo |
| Optics.PerpendicularDiscriminant | src/shaders/neeimprovedintegrator.cpp:140 | at grazing incidence the discriminant is 1 - mu^2 |
| Optics.AxisNormalLobeIsMirrorDirection | src/materials/mirror.cpp:17 | with a componentwise product and a unit normal along a coordinate axis (either sign) the lobe axis is the mirror direction of wi |
| Optics.ObliqueNormalLobeIsNotMirrorDirection | src/materials/mirror.cpp:17 | with a componentwise product and the oblique unit normal (0.6, 0.8, 0) the lobe axis differs from the mirror direction |
| Scene.HemisphereWeight | src/shaders/neeimprovedintegrator.cpp:182-188 | one sample `1/N (Li fr costheta) 2 pi` is `Li fr` scaled by costheta 2 pi / N, and a back-facing sample adds nothing |
| Scene.RepeatedHemisphereWeight | src/shaders/neeimprovedintegrator.cpp:188 | N samples of the same integrand w add up to 2 pi w whatever N is |
| Scene.AveragedTwoPiWeight | src/shaders/purepathintegrator.cpp:103-106 | N samples `w 2 pi` summed and then divided by N give 2 pi w |
| DirectLighting.GeometricTerm | src/shaders/neeintegrator.cpp:64-66 | the geometric term of a light sample is never negative |
| DirectLighting.DirectRadiance | src/shaders/neeintegrator.cpp:45-97 | the light loop adds every light's five samples in order: the result is the direct radiance function |
| DirectLighting.LightRadiance | src/shaders/neeintegrator.cpp:58-94 | the sample loop of one light adds exactly the samples whose V is 1 |
| DirectLighting.SampleRadiance | src/shaders/neeintegrator.cpp:60-93 | V is 1 exactly when the shadow ray hits nothing or hits no closer than the light, set afresh for each sample; the contribution is `(1/5) Le fr G area` when visible and nothing otherwise |
| DirectLighting.NoLightsNoDirect | src/shaders/neeintegrator.cpp:50-56 | with an empty light list the direct radiance is black |
| DirectLighting.OccludedLightSum | src/shaders/neeintegrator.cpp:85-93 | samples that all add nothing leave a light's sum black |
| DirectLighting.OccludedHitHasNoDirect | src/shaders/neeintegrator.cpp:74-93 | when every shadow ray of every sample is blocked before its light, the direct radiance is black |
| DirectLighting.FixedPositionAveragesExactly | src/shaders/neeintegrator.cpp:54-92 | with a light that always yields position q, its five 1/5-weighted samples add up to `Le fr G area` once if q is visible, and to nothing otherwise |
| DirectLighting.StubSamplerLightsFromOrigin | src/lightsources/arealightsource.cpp:15-21 | with the stub sampler each light contributes exactly once, as if placed at the origin |
| NeeImproved.SampleCount | src/shaders/neeimprovedintegrator.cpp:164-168 | 100 hemisphere samples at depth 0 and 1 below |
| NeeImproved.ComputeColor | src/shaders/neeimprovedintegrator.cpp:15-33 | the code computes the radiance function: background on a miss, emission plus reflected radiance on a hit |
| NeeImproved.ReflectedRadiance | src/shaders/neeimprovedintegrator.cpp:35-43 | the code computes direct plus indirect |
| NeeImproved.IndirectRadiance | src/shaders/neeimprovedintegrator.cpp:99-193 | the code computes the indirect function: the depth cap, the dispatch and each branch's recursion one level deeper |
| NeeImproved.DiffuseRadiance | src/shaders/neeimprovedintegrator.cpp:161-168 | the diffuse branch sums SampleCount(depth) samples |
| NeeImproved.HemisphereEstimate | src/shaders/neeimprovedintegrator.cpp:169-189 | the loop accumulates the N samples in drawing order |
| NeeImproved.HemisphereSampleRadiance | src/shaders/neeimprovedintegrator.cpp:171-188 | one sample: the reflected radiance one level deeper at what the sample ray hits, or nothing on a miss, weighted by the hemisphere weight |
| NeeImproved.MissIsBackground | src/shaders/neeimprovedintegrator.cpp:32 | a ray that hits nothing returns exactly bgColor |
| NeeImproved.HitIsEmittedDirectIndirect | src/shaders/neeimprovedintegrator.cpp:21-43 | on a hit the colour is emission + direct + indirect at the ray's depth, seen from -r.d |
| NeeImproved.DepthCapStopsIndirect | src/shaders/neeimprovedintegrator.cpp:103-107 | at depth >= 3 the indirect radiance is black and the reflected radiance is the direct radiance alone |
| NeeImproved.CappedRayIsLocal | src/shaders/neeimprovedintegrator.cpp:15-43 | a ray at depth >= 3 starts no recursion: background, or emission plus direct light |
| NeeImproved.NoFlagNoIndirect | src/shaders/neeimprovedintegrator.cpp:113-192 | a material with no flag set gets black indirect radiance |
| NeeImproved.MirrorAndTransmissiveFollowMirrorRay | src/shaders/neeimprovedintegrator.cpp:114-122 | below the cap the indirect radiance of a Mirror or a Transmissive is the colour along the normalized mirror direction at depth + 1 |
| NeeImproved.TotalInternalReflectionFollowsMirrorRay | src/shaders/neeimprovedintegrator.cpp:142-148 | a refracting material with a negative discriminant follows the mirror direction about the facing normal, at depth + 1 |
| NeeImproved.IncomingOmitsEmission | src/shaders/neeimprovedintegrator.cpp:176-180 | what a hemisphere sample sees is the colour of the same ray minus the hit's emission |
| NeeImproved.UniformSamplesGiveTwoPi | src/shaders/neeimprovedintegrator.cpp:170-189 | when every sample's integrand `Li fr max(0, wi . n)` is w, the N samples add up to 2 pi w, whatever N |
| NeeImproved.UniformSamplesRepeat | src/shaders/neeimprovedintegrator.cpp:170-189 | those N samples are N copies of `w / N * 2 * pi` |
| Nee.SampleCount | src/shaders/neeintegrator.cpp:113-118 | 40 hemisphere samples at depth 0 and 1 below |
| Nee.ComputeColor | src/shaders/neeintegrator.cpp:15-33 | the code computes the radiance function: background on a miss, emission plus reflected radiance on a hit |
| Nee.ReflectedRadiance | src/shaders/neeintegrator.cpp:35-43 | the code computes direct plus indirect |
| Nee.IndirectRadiance | src/shaders/neeintegrator.cpp:99-142 | the code computes the indirect function: black at the cap, else the hemisphere estimate |
| Nee.HemisphereEstimate | src/shaders/neeintegrator.cpp:119-139 | the loop accumulates the N samples in drawing order |
| Nee.HemisphereSampleRadiance | src/shaders/neeintegrator.cpp:120-138 | one sample: the reflected radiance one level deeper at what the sample ray hits, or nothing, weighted |
| Nee.MissIsBackground | src/shaders/neeintegrator.cpp:32 | a ray that hits nothing returns exactly bgColor |
| Nee.HitIsEmittedDirectIndirect | src/shaders/neeintegrator.cpp:21-43 | on a hit the colour is emission + direct + indirect |
| Nee.DepthCapStopsIndirect | src/shaders/neeintegrator.cpp:103-107 | at depth >= 3 the indirect radiance is black and only the direct term is left |
| Nee.MirrorIsSampledLikeAnyMaterial | src/shaders/neeintegrator.cpp:108-139 | there is no dispatch: even a Mirror at the first hit gets the 40-sample hemisphere estimate |
| Nee.DarkOpenSceneReflectsNothing | src/shaders/neeintegrator.cpp:45-139 | with no lights and every secondary ray escaping, a hit reflects nothing at any depth |
| Nee.DarkSampleIsBlack | src/shaders/neeintegrator.cpp:127-138 | a sample whose ray escapes adds nothing |
| Nee.UniformSamplesGiveTwoPi | src/shaders/neeintegrator.cpp:119-139 | when every sample's integrand is w, the samples add up to 2 pi w, whatever N |
| PurePath.SampleCount | src/shaders/purepathintegrator.cpp:83-88 | 256 hemisphere samples at depth 0 and 1 below |
| PurePath.ComputeColor | src/shaders/purepathintegrator.cpp:13-113 | given the same fuel, the code computes the radiance function |
| PurePath.BranchRadiance | src/shaders/purepathintegrator.cpp:32-106 | below the cap, the branch the flags select, as the radiance function has it |
| PurePath.DiffuseRadiance | src/shaders/purepathintegrator.cpp:81-106 | emission plus `Lo / N` over SampleCount(depth) samples, or None when a sample ran out of fuel |
| PurePath.HemisphereEstimate | src/shaders/purepathintegrator.cpp:90-104 | the loop accumulates the samples in drawing order, or gives up at the first that ran out of fuel |
| PurePath.PathSampleRadiance | src/shaders/purepathintegrator.cpp:92-103 | one sample: `Li fr max(0, wi . n) 2 pi` with Li the colour along wi at depth + 1 |
| PurePath.MissIsBackground | src/shaders/purepathintegrator.cpp:112 | a ray that hits nothing returns exactly bgColor |
| PurePath.DepthCapReturnsEmission | src/shaders/purepathintegrator.cpp:25-30 | a hit at depth >= 5 returns exactly its emission |
| PurePath.MirrorKeepsDepthAndDropsEmission | src/shaders/purepathintegrator.cpp:32-41 | a specular hit's colour is exactly the colour along the mirror direction at the same depth; the emission is dropped |
| PurePath.RefractionKeepsDepthAndDropsEmission | src/shaders/purepathintegrator.cpp:43-78 | a refracting hit's colour is exactly the next colour, one level deeper only on total internal reflection |
| PurePath.MirrorCorridorNeverEnds | src/shaders/purepathintegrator.cpp:33-40 | in a scene where every ray hits a Mirror, a ray below depth 5 never finishes, whatever the fuel |
| PurePath.MoreFuelSameColor | src/shaders/purepathintegrator.cpp:13-113 | fuel decides only whether the recursion finishes: a finished colour stays the same with more fuel |
| PurePath.MoreFuelSameSamples | src/shaders/purepathintegrator.cpp:90-104 | likewise for the hemisphere samples |
| PurePath.UniformSamplesGiveTwoPi | src/shaders/purepathintegrator.cpp:81-106 | when every sample's integrand is w, a diffuse hit's colour is emission + 2 pi w, whatever N |
| PurePath.UniformPathSamples | src/shaders/purepathintegrator.cpp:90-104 | those samples add up to N copies of `w 2 pi` |
| Hemispherical.EmissionIfEmissive | src/shaders/hemisphericalintergrator.cpp:85-86 | the emission of an emissive material, black for any other |
| Hemispherical.SeenEmission | src/shaders/hemisphericalintergrator.cpp:83-89 | a sample's Li is black on a miss and the hit's emission only if the hit is emissive |
| Hemispherical.Samples | src/shaders/hemisphericalintergrator.cpp:74-76 | exactly 200 samples at every diffuse hit |
| Hemispherical.ComputeColor | src/shaders/hemisphericalintergrator.cpp:13-117 | given the same fuel, the code computes the radiance function |
| Hemispherical.BranchRadiance | src/shaders/hemisphericalintergrator.cpp:26-106 | the branch the flags select, as the radiance function has it |
| Hemispherical.DiffuseRadiance | src/shaders/hemisphericalintergrator.cpp:72-106 | the sample loop and then the ambient term compute the diffuse function |
| Hemispherical.SampleRadiance | src/shaders/hemisphericalintergrator.cpp:76-97 | one sample, weighted `1/N (Li fr costheta) 2 pi` |
| Hemispherical.MissIsBackground | src/shaders/hemisphericalintergrator.cpp:116 | a ray that hits nothing returns exactly bgColor |
| Hemispherical.MirrorAndTransmissiveShowMirrorRay | src/shaders/hemisphericalintergrator.cpp:27-34 | a Mirror or Transmissive hit shows exactly the colour along the mirror direction, seen by a depth-0 ray |
| Hemispherical.PureEmitterShowsItsEmission | src/shaders/hemisphericalintergrator.cpp:108-111 | the emission is added after the branch: an emitter with no other flag shows exactly its emission |
| Hemispherical.MirrorCorridorNeverEnds | src/shaders/hemisphericalintergrator.cpp:27-34 | with no depth at all, in a scene where every ray hits a Mirror no amount of fuel is enough |
| Hemispherical.MoreFuelSameColor | src/shaders/hemisphericalintergrator.cpp:13-117 | a finished colour stays the same with more fuel |
| Hemispherical.MoreFuelSameBranch | src/shaders/hemisphericalintergrator.cpp:26-69 | likewise for the branch colour |
| Hemispherical.NoEmitterInViewIsAmbientOnly | src/shaders/hemisphericalintergrator.cpp:83-105 | when no sample ray hits an emitter, the diffuse branch is the ambient term `0.2 kd` alone |
| Hemispherical.DarkSampleIsBlack | src/shaders/hemisphericalintergrator.cpp:83-97 | a sample whose ray hits no emitter adds nothing |
| Hemispherical.UniformSamplesGiveTwoPi | src/shaders/hemisphericalintergrator.cpp:74-105 | when every sample's integrand is w, the diffuse branch is 2 pi w plus the ambient term |
| Whitted.Visibility | src/shaders/whittedintegrator.cpp:38-46 | a shadow ray that hits nothing leaves V unchanged |
| Whitted.ComputeColor | src/shaders/whittedintegrator.cpp:12-68 | the loop over the lights computes the radiance function, with V carried across iterations |
| Whitted.LightStep | src/shaders/whittedintegrator.cpp:28-60 | one light updates V from its shadow ray and then adds `kd 0.2 + Li fr costheta V` with the new V |
| Whitted.MissIsBackground | src/shaders/whittedintegrator.cpp:67 | a ray that hits nothing returns exactly bgColor |
| Whitted.NoLightsIsBlack | src/shaders/whittedintegrator.cpp:23-62 | a hit with an empty light list is black, without even the ambient term |
| Whitted.VisibilityIsFlag | src/shaders/whittedintegrator.cpp:25-46 | V is always 0 or 1 |
| Whitted.EscapingShadowRayKeepsVisibility | src/shaders/whittedintegrator.cpp:25-46 | a light whose shadow ray escapes reuses the previous light's V, and 0 for the first light |
| Whitted.EscapingShadowRaysLeaveVisibilityZero | src/shaders/whittedintegrator.cpp:25-46 | when every shadow ray escapes, V stays 0 for every light |
| Whitted.DarkLightIsAmbient | src/shaders/whittedintegrator.cpp:60 | with V = 0 a light adds only its ambient term |
| Whitted.AllDarkIsAmbientPerLight | src/shaders/whittedintegrator.cpp:27-61 | with V = 0 for every light the colour is the ambient term once per light |
| Whitted.StubSamplerSharesVisibility | src/lightsources/arealightsource.cpp:15-21 | with the stub sampler every light's shadow ray is the same ray towards the origin, so every light gets the first light's V |
| Whitted.UnoccludedSceneIsAmbientOnly | src/shaders/whittedintegrator.cpp:18-62 | when no shadow ray hits anything the colour is `|lights| kd 0.2`: no direct light counts |
| DepthShading.DepthColor | src/shaders/depthshader.cpp:21-30 | background on a miss; on a hit red and blue are 0 and green is `1 - d / maxDist` with d the distance from the ray origin |
| DepthShading.RampInUnitInterval | src/shaders/depthshader.cpp:27 | for maxDist > 0 and 0 <= d <= maxDist the green level lies in [0, 1], and is 1 at d = 0 |
| DepthShading.RampStrictlyDecreasing | src/shaders/depthshader.cpp:27 | for maxDist > 0 the green level strictly decreases with distance |
| DepthShading.HitGreenInUnitInterval | src/shaders/depthshader.cpp:22-27 | a hit no farther than maxDist is green in [0, 1], and full green at the ray's origin (given a sound square root) |

## Left out

- The closest-intersection query, shape geometry, the hemisphere sampler and `std::rand` are not part of this model. They are inputs, and nothing is assumed about them beyond what a lemma states in its `requires`.
- `sqrt`, `pow`, `normalized()` and the `Vector3D * Vector3D` product are not part of this model. They are inputs in `MathLib`, and the only facts used about them are the `SqrtSound`, `ComponentwiseProduct` and `BlackAbsorbs` preconditions.
- IEEE double and float behaviour is out: rounding, overflow, NaN and infinities. All arithmetic is over `real`.
- Div: division by zero gives 0 in the model, where the C++ code gets an infinity or NaN. This affects `d / maxDist` with maxDist = 0, the geometric term's `/ |lightPos - x|^2` with the light at the hit point, and `n_i / n_t` with a zero index.
- DepthShading.DepthColor: does not model the truncation of the distance to `float` before the division.
- PurePath.ComputeColor: the recursion has no bound for a mirror or refraction chain, so it runs on fuel. `None` stands for "had not finished". The code's actual non-termination (stack overflow) is shown only as `MirrorCorridorNeverEnds`.
- Hemispherical.ComputeColor: likewise runs on fuel, because the recursion carries no depth at all.
- The random streams are modelled as keyed functions. The model does not capture the order in which a shared generator would be advanced, or any correlation between draws.
- Monte-Carlo convergence and the statistical agreement between integrators cannot be stated over fixed sample values. Only the exact weights are proved: 1/N, 2 pi and 1/5.
- The console warning printed by `Mirror::getIndexOfRefraction` is out; only the -1 return is kept.
- The unused `hitColor` fields and the default constructors are out, because no integrator reads what they set.
- The integrator headers hold declarations only, and are out.
- `AreaIntegrator` is out, because its code is not part of this model.
- The other material classes (Phong, Emissive and so on) are not part of this model. They appear as `Materials.Other`, which carries their flags, reflectance, emission, diffuse colour and index as given data.
- `Square`'s normal and area come from the shape's own code, which is not part of this model. They are given values.
- The Part2 OpenGL material (`Part2/src/graphics/material.cpp`) is out: it is GPU state, UI and volume loading.
- The integrators read the light position from the input `lightPosition`, not from `Lights.SampleLightPosition` directly. The program's only sampler, the stub, is one instance of that input; `DirectLighting.StubSamplerLightsFromOrigin` and `Whitted.StubSamplerSharesVisibility` state what it implies.
- The integrators' transmission branches are modelled by calling `Optics.Transmit`, not by repeating the flip, mu and discriminant steps inline. The three integrators with a transmission branch write the same steps, and `Transmit` states them.
