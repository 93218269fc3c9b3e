/**
  What an integrator is given: the ray, the intersection query over the shape
  list, the light list, the random samplers and the background colour.
 */
module Scene {
  import opened Vectors
  import opened Materials
  import opened Lights

  datatype Option<+T> = None | Some(value: T)

  /** Origin, direction and bounce depth; a ray built without a depth has depth 0. */
  datatype Ray = Ray(o: Vec3, d: Vec3, depth: nat)

  /** A hit: point, surface normal (not necessarily unit) and the shape's material. */
  datatype Intersection = Intersection(point: Vec3, normal: Vec3, material: Material)

  /**
    Identifies one call of a random sampler: the path of sample indices from
    the camera ray down to the call. Any sequence of random draws can be
    replayed by a sampler keyed this way.
   */
  type Key = seq<nat>

  /**
    The collaborators of `computeColor`: `Utils::getClosestIntersection` over
    the shape list, the light list, `HemisphericalSampler::getSample` (about a
    normal), `LightSource::sampleLightPosition` (for the light of that index),
    the maths library and the shader's `bgColor`.
   */
  datatype Context = Context(
    isect: Ray -> Option<Intersection>,
    lights: seq<AreaLightSource>,
    hemisphere: (Vec3, Key) -> Vec3,
    lightPosition: (nat, Key) -> Vec3,
    lib: MathLib,
    bg: Vec3)

  /** The constant ambient light intensity (0.2, 0.2, 0.2). */
  const Ambient: Vec3 := Vec3(0.2, 0.2, 0.2)

  /**
    One hemisphere sample of an N-sample estimate,
    `1.0 / N * (Li * fr * costheta) * 2 * M_PI`: the product Li * fr scaled by
    the clamped cosine and by 2 pi / N; a back-facing sample adds nothing.
   */
  function HemisphereWeight(lib: MathLib, li: Vec3, fr: Vec3, costheta: real, n: nat): (w: Vec3)
    requires n > 0
    ensures w == Scale(lib.mul(li, fr), costheta * (2.0 * Pi / n as real))
    ensures costheta == 0.0 ==> w == Zero
  {
    Scale(Scale(Scale(Scale(lib.mul(li, fr), costheta), 1.0 / n as real), 2.0), Pi)
  }

  /**
    The 1/N and 2 pi weights of an N-sample hemisphere estimate: N samples
    that all carry the integrand w add up to 2 pi w, whatever N is.
   */
  lemma RepeatedHemisphereWeight(w: Vec3, n: nat)
    requires n > 0
    ensures Repeat(Scale(Scale(Scale(w, 1.0 / n as real), 2.0), Pi), n) == Scale(w, 2.0 * Pi)
  {
    ScaleScale(Scale(w, 1.0 / n as real), 2.0, Pi);
    ScaleCommutes(w, 1.0 / n as real, 2.0 * Pi);
    RepeatAverage(Scale(w, 2.0 * Pi), n);
  }

  /**
    The 2 pi weight with the average taken after the sum: N samples that all
    carry `w * 2 * pi`, added and divided by N, give 2 pi w.
   */
  lemma AveragedTwoPiWeight(w: Vec3, n: nat)
    requires n > 0
    ensures Scale(Repeat(Scale(Scale(w, 2.0), Pi), n), 1.0 / n as real) == Scale(w, 2.0 * Pi)
  {
    RepeatThenAverage(Scale(Scale(w, 2.0), Pi), n);
    ScaleScale(w, 2.0, Pi);
  }
}
