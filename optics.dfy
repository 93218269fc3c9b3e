/**
  The direction constructions shared by the recursive integrators: the
  perfect mirror direction, the enter/exit test and the Snell step with its
  total-internal-reflection fallback. Directions are those before
  `normalized()` is applied.
 */
module Optics {
  import opened Vectors
  import opened Materials

  /** Index of refraction of the medium outside every object (air). */
  const OutsideIndex: real := 1.0

  /** `2 * dot(wo, n) * n - wo`. */
  function MirrorDirection(wo: Vec3, n: Vec3): Vec3 {
    Sub(Scale(n, 2.0 * Dot(wo, n)), wo)
  }

  lemma DotScaleLeft(a: Vec3, s: real, b: Vec3)
    ensures Dot(Scale(a, s), b) == s * Dot(a, b)
  {
  }

  lemma DotSubSelf(a: Vec3, b: Vec3)
    ensures Dot(Sub(a, b), Sub(a, b)) == Dot(a, a) - 2.0 * Dot(a, b) + Dot(b, b)
  {
  }

  lemma DotScaleBoth(a: Vec3, s: real)
    ensures Dot(Scale(a, s), Scale(a, s)) == s * s * Dot(a, a)
  {
    DotScaleLeft(a, s, Scale(a, s));
    assert Dot(a, Scale(a, s)) == s * Dot(a, a);
  }

  /** For a unit normal the mirror direction makes the same angle with n and keeps the length of wo. */
  lemma MirrorLaw(wo: Vec3, n: Vec3)
    requires Dot(n, n) == 1.0
    ensures Dot(MirrorDirection(wo, n), n) == Dot(wo, n)
    ensures Dot(MirrorDirection(wo, n), MirrorDirection(wo, n)) == Dot(wo, wo)
  {
    var c := Dot(wo, n);
    var a := Scale(n, 2.0 * c);
    DotScaleLeft(n, 2.0 * c, n);
    assert Dot(MirrorDirection(wo, n), n) == 2.0 * c * Dot(n, n) - c;
    DotSubSelf(a, wo);
    DotScaleBoth(n, 2.0 * c);
    DotScaleLeft(n, 2.0 * c, wo);
    assert Dot(a, a) == 4.0 * c * c;
    assert Dot(a, wo) == 2.0 * c * c;
  }

  /** Mirroring twice about a unit normal gives back the original direction. */
  lemma MirrorInvolution(wo: Vec3, n: Vec3)
    requires Dot(n, n) == 1.0
    ensures MirrorDirection(MirrorDirection(wo, n), n) == wo
  {
    MirrorLaw(wo, n);
  }

  /** The normal facing the viewer and the ratio of indices `mu`. */
  datatype Facing = Facing(normal: Vec3, mu: real)

  /**
    The enter/exit test: when wo is on the back of n the ray leaves the
    object, the normal is flipped and mu = n_i / n_t; otherwise it enters and
    mu = n_t / n_i, with n_i = 1 outside and n_t the material's index.
   */
  function Orient(wo: Vec3, n: Vec3, ior: real): (f: Facing)
    ensures 0.0 <= Dot(f.normal, wo)
    ensures Dot(f.normal, f.normal) == Dot(n, n)
    ensures Dot(wo, n) < 0.0 ==> f.normal == Neg(n) && f.mu == Div(OutsideIndex, ior)
    ensures 0.0 <= Dot(wo, n) ==> f.normal == n && f.mu == ior
  {
    if Dot(wo, n) < 0.0 then Facing(Neg(n), Div(OutsideIndex, ior))
    else Facing(n, ior / OutsideIndex)
  }

  /** For a non-zero index the ratios used on entry and on exit are reciprocal. */
  lemma EntryAndExitRatiosAreReciprocal(wo: Vec3, n: Vec3, ior: real)
    requires ior != 0.0
    requires Dot(wo, n) > 0.0
    ensures Orient(wo, n, ior).mu * Orient(Neg(wo), n, ior).mu == 1.0
  {
    assert Dot(Neg(wo), n) == -Dot(wo, n);
  }

  /** `1 - mu^2 (1 - (n . wo)^2)`. */
  function Discriminant(f: Facing, wo: Vec3): real {
    1.0 - f.mu * f.mu * (1.0 - Dot(f.normal, wo) * Dot(f.normal, wo))
  }

  datatype Transmission = TotalInternalReflection(dir: Vec3) | Refraction(dir: Vec3)

  /**
    The transmission step: total internal reflection, a mirror bounce about
    the flipped normal, exactly when the discriminant is negative; otherwise
    the refracted direction `-mu wo + n (mu (n . wo) - sqrt(discr))`.
   */
  function Transmit(lib: MathLib, wo: Vec3, n: Vec3, ior: real): (t: Transmission)
    ensures t.TotalInternalReflection? <==> Discriminant(Orient(wo, n, ior), wo) < 0.0
    ensures t.TotalInternalReflection? ==> t.dir == MirrorDirection(wo, Orient(wo, n, ior).normal)
  {
    var f := Orient(wo, n, ior);
    var discr := Discriminant(f, wo);
    if discr < 0.0 then
      TotalInternalReflection(MirrorDirection(wo, f.normal))
    else
      Refraction(Add(Scale(wo, -f.mu), Scale(f.normal, f.mu * Dot(f.normal, wo) - lib.sqrt(discr))))
  }

  /** With matched indices (n_t = n_i = 1) the ray goes straight through, on entry and on exit. */
  lemma NoBendingAtMatchedIndex(lib: MathLib, wo: Vec3, n: Vec3)
    requires SqrtSound(lib)
    ensures Transmit(lib, wo, n, OutsideIndex) == Refraction(Neg(wo))
  {
    var f := Orient(wo, n, OutsideIndex);
    var c := Dot(f.normal, wo);
    assert f.mu == 1.0;
    assert Discriminant(f, wo) == c * c;
    SqrtOfSquare(lib, c);
    assert f.mu * c - lib.sqrt(Discriminant(f, wo)) == 0.0;
  }

  /** No total internal reflection when |mu| <= 1 and |n . wo| <= 1. */
  lemma NoTotalReflectionWhenRatioAtMostOne(f: Facing, wo: Vec3)
    requires f.mu * f.mu <= 1.0
    requires Dot(f.normal, wo) * Dot(f.normal, wo) <= 1.0
    ensures Discriminant(f, wo) >= 0.0
  {
    var c := Dot(f.normal, wo);
    var s := 1.0 - c * c;
    var m2 := f.mu * f.mu;
    assert 0.0 <= s && 0.0 <= 1.0 - m2;
    MulNonNegative(1.0 - m2, s);
    assert 0.0 <= c * c;
    assert Discriminant(f, wo) == 1.0 - m2 * s;
  }

  /**
    As written, a ray leaving an object with index at least 1 is never
    totally reflected (mu = 1 / n_t there), given |n . wo| <= 1.
   */
  lemma ExitNeverReflectsTotally(lib: MathLib, wo: Vec3, n: Vec3, ior: real)
    requires 1.0 <= ior
    requires Dot(wo, n) < 0.0
    requires Dot(wo, n) * Dot(wo, n) <= 1.0
    ensures Transmit(lib, wo, n, ior).Refraction?
  {
    var f := Orient(wo, n, ior);
    assert f.mu == 1.0 / ior;
    assert 0.0 < f.mu <= 1.0;
    assert f.mu * f.mu <= 1.0;
    assert Dot(f.normal, wo) == -Dot(wo, n);
    NoTotalReflectionWhenRatioAtMostOne(f, wo);
  }

  /**
    As written, a ray entering an object denser than air (n_t > 1) at
    grazing incidence is totally reflected straight back, since mu = n_t
    there and the discriminant is 1 - n_t^2.
   */
  lemma GrazingEntryReflectsTotally(lib: MathLib, wo: Vec3, n: Vec3, ior: real)
    requires Dot(wo, n) == 0.0
    requires 1.0 < ior
    ensures Transmit(lib, wo, n, ior) == TotalInternalReflection(Neg(wo))
  {
    var f := Orient(wo, n, ior);
    assert f.normal == n && f.mu == ior;
    PerpendicularDiscriminant(f, wo);
    assert ior * ior > 1.0 by {
      assert ior * ior > ior * 1.0;
    }
    var scaled := Scale(n, 2.0 * Dot(wo, n));
    assert scaled.x == 0.0 && scaled.y == 0.0 && scaled.z == 0.0;
    assert MirrorDirection(wo, n) == Neg(wo);
  }

  /** At grazing incidence the discriminant is `1 - mu^2`. */
  lemma PerpendicularDiscriminant(f: Facing, wo: Vec3)
    requires Dot(f.normal, wo) == 0.0
    ensures Discriminant(f, wo) == 1.0 - f.mu * f.mu
  {
  }

  /** A unit normal along a coordinate axis, pointing either way. */
  predicate AxisUnit(n: Vec3) {
    || (n.y == 0.0 && n.z == 0.0 && (n.x == 1.0 || n.x == -1.0))
    || (n.x == 0.0 && n.z == 0.0 && (n.y == 1.0 || n.y == -1.0))
    || (n.x == 0.0 && n.y == 0.0 && (n.z == 1.0 || n.z == -1.0))
  }

  /**
    With the componentwise product and a unit normal along a coordinate axis,
    the mirror lobe axis of Mirror::getReflectance is the mirror direction of wi.
   */
  lemma AxisNormalLobeIsMirrorDirection(lib: MathLib, n: Vec3, wi: Vec3)
    requires ComponentwiseProduct(lib)
    requires AxisUnit(n)
    ensures LobeAxis(lib, n, wi) == MirrorDirection(wi, n)
  {
    if n.x == 1.0 {
      LobeAlongPlusX(lib, wi);
    } else if n.x == -1.0 {
      LobeAlongMinusX(lib, wi);
    } else if n.y == 1.0 {
      LobeAlongPlusY(lib, wi);
    } else if n.y == -1.0 {
      LobeAlongMinusY(lib, wi);
    } else if n.z == 1.0 {
      LobeAlongPlusZ(lib, wi);
    } else {
      LobeAlongMinusZ(lib, wi);
    }
  }

  // The six axis normals, one at a time.

  lemma LobeAlongPlusX(lib: MathLib, wi: Vec3)
    requires ComponentwiseProduct(lib)
    ensures LobeAxis(lib, Vec3(1.0, 0.0, 0.0), wi) == MirrorDirection(wi, Vec3(1.0, 0.0, 0.0))
  {
    var n := Vec3(1.0, 0.0, 0.0);
    assert lib.mul(n, wi) == Vec3(wi.x, 0.0, 0.0);
    assert lib.mul(Scale(lib.mul(n, wi), 2.0), n) == Vec3(2.0 * wi.x, 0.0, 0.0);
  }

  lemma LobeAlongMinusX(lib: MathLib, wi: Vec3)
    requires ComponentwiseProduct(lib)
    ensures LobeAxis(lib, Vec3(-1.0, 0.0, 0.0), wi) == MirrorDirection(wi, Vec3(-1.0, 0.0, 0.0))
  {
    var n := Vec3(-1.0, 0.0, 0.0);
    assert lib.mul(n, wi) == Vec3(-wi.x, 0.0, 0.0);
    assert lib.mul(Scale(lib.mul(n, wi), 2.0), n) == Vec3(2.0 * wi.x, 0.0, 0.0);
  }

  lemma LobeAlongPlusY(lib: MathLib, wi: Vec3)
    requires ComponentwiseProduct(lib)
    ensures LobeAxis(lib, Vec3(0.0, 1.0, 0.0), wi) == MirrorDirection(wi, Vec3(0.0, 1.0, 0.0))
  {
    var n := Vec3(0.0, 1.0, 0.0);
    assert lib.mul(n, wi) == Vec3(0.0, wi.y, 0.0);
    assert lib.mul(Scale(lib.mul(n, wi), 2.0), n) == Vec3(0.0, 2.0 * wi.y, 0.0);
  }

  lemma LobeAlongMinusY(lib: MathLib, wi: Vec3)
    requires ComponentwiseProduct(lib)
    ensures LobeAxis(lib, Vec3(0.0, -1.0, 0.0), wi) == MirrorDirection(wi, Vec3(0.0, -1.0, 0.0))
  {
    var n := Vec3(0.0, -1.0, 0.0);
    assert lib.mul(n, wi) == Vec3(0.0, -wi.y, 0.0);
    assert lib.mul(Scale(lib.mul(n, wi), 2.0), n) == Vec3(0.0, 2.0 * wi.y, 0.0);
  }

  lemma LobeAlongPlusZ(lib: MathLib, wi: Vec3)
    requires ComponentwiseProduct(lib)
    ensures LobeAxis(lib, Vec3(0.0, 0.0, 1.0), wi) == MirrorDirection(wi, Vec3(0.0, 0.0, 1.0))
  {
    var n := Vec3(0.0, 0.0, 1.0);
    assert lib.mul(n, wi) == Vec3(0.0, 0.0, wi.z);
    assert lib.mul(Scale(lib.mul(n, wi), 2.0), n) == Vec3(0.0, 0.0, 2.0 * wi.z);
  }

  lemma LobeAlongMinusZ(lib: MathLib, wi: Vec3)
    requires ComponentwiseProduct(lib)
    ensures LobeAxis(lib, Vec3(0.0, 0.0, -1.0), wi) == MirrorDirection(wi, Vec3(0.0, 0.0, -1.0))
  {
    var n := Vec3(0.0, 0.0, -1.0);
    assert lib.mul(n, wi) == Vec3(0.0, 0.0, -wi.z);
    assert lib.mul(Scale(lib.mul(n, wi), 2.0), n) == Vec3(0.0, 0.0, 2.0 * wi.z);
  }

  lemma ObliqueMirrorDirection()
    ensures MirrorDirection(Vec3(1.0, 0.0, 0.0), Vec3(0.6, 0.8, 0.0)) == Vec3(-0.28, 0.96, 0.0)
  {
  }

  lemma ObliqueLobeAxis(lib: MathLib)
    requires ComponentwiseProduct(lib)
    ensures LobeAxis(lib, Vec3(0.6, 0.8, 0.0), Vec3(1.0, 0.0, 0.0)) == Vec3(-0.28, 0.0, 0.0)
  {
    var n, wi := Vec3(0.6, 0.8, 0.0), Vec3(1.0, 0.0, 0.0);
    var a := lib.mul(n, wi);
    assert a == Vec3(0.6, 0.0, 0.0);
    var c := lib.mul(Scale(a, 2.0), n);
    assert c == Vec3(0.72, 0.0, 0.0);
  }

  /**
    For an oblique unit normal the componentwise lobe axis is not the mirror
    direction: n = (0.6, 0.8, 0), wi = (1, 0, 0) give (-0.28, 0, 0) instead of
    (-0.28, 0.96, 0).
   */
  lemma ObliqueNormalLobeIsNotMirrorDirection(lib: MathLib)
    requires ComponentwiseProduct(lib)
    ensures LobeAxis(lib, Vec3(0.6, 0.8, 0.0), Vec3(1.0, 0.0, 0.0))
         != MirrorDirection(Vec3(1.0, 0.0, 0.0), Vec3(0.6, 0.8, 0.0))
  {
    ObliqueLobeAxis(lib);
    ObliqueMirrorDirection();
  }
}
