/**
  DepthShader: a hit is coloured pure green, darker the farther it is from
  the ray's origin, reaching black at `maxDist`; a miss gets the background.
 */
module DepthShading {
  import opened Vectors
  import opened Scene

  /** The green level at distance d: `1 - d / maxDist`. */
  function Ramp(d: real, maxDist: real): real {
    1.0 - Div(d, maxDist)
  }

  /** `computeColor`: red and blue are 0 on a hit and green is the ramp at the hit's distance. */
  function DepthColor(ctx: Context, maxDist: real, r: Ray): (c: Vec3)
    ensures ctx.isect(r).None? ==> c == ctx.bg
    ensures ctx.isect(r).Some? ==>
              c.x == 0.0 && c.z == 0.0 &&
              c.y == Ramp(Length(ctx.lib, Sub(r.o, ctx.isect(r).value.point)), maxDist)
  {
    match ctx.isect(r)
    case None => ctx.bg
    case Some(its) =>
      var distance := Length(ctx.lib, Sub(r.o, its.point));
      Vec3(0.0, 1.0 - Div(distance, maxDist), 0.0)
  }

  /** For a positive maxDist, distances in [0, maxDist] give a green level in [0, 1], and 1 at distance 0. */
  lemma RampInUnitInterval(d: real, maxDist: real)
    requires 0.0 < maxDist
    requires 0.0 <= d <= maxDist
    ensures 0.0 <= Ramp(d, maxDist) <= 1.0
    ensures d == 0.0 ==> Ramp(d, maxDist) == 1.0
  {
    assert d / maxDist <= maxDist / maxDist;
  }

  /** For a positive maxDist the green level strictly decreases with distance. */
  lemma RampStrictlyDecreasing(d1: real, d2: real, maxDist: real)
    requires 0.0 < maxDist
    requires d1 < d2
    ensures Ramp(d2, maxDist) < Ramp(d1, maxDist)
  {
    assert d2 / maxDist - d1 / maxDist == (d2 - d1) / maxDist;
  }

  /**
    With a sound square root, a hit no farther than a positive maxDist is
    green in [0, 1], and a hit at the ray's own origin is full green.
   */
  lemma HitGreenInUnitInterval(ctx: Context, maxDist: real, r: Ray)
    requires SqrtSound(ctx.lib)
    requires 0.0 < maxDist
    requires ctx.isect(r).Some?
    requires Length(ctx.lib, Sub(r.o, ctx.isect(r).value.point)) <= maxDist
    ensures 0.0 <= DepthColor(ctx, maxDist, r).y <= 1.0
    ensures ctx.isect(r).value.point == r.o ==> DepthColor(ctx, maxDist, r).y == 1.0
  {
    var v := Sub(r.o, ctx.isect(r).value.point);
    assert 0.0 <= Dot(v, v) by {
      assert Dot(v, v) == v.x * v.x + v.y * v.y + v.z * v.z;
    }
    RampInUnitInterval(Length(ctx.lib, v), maxDist);
    if ctx.isect(r).value.point == r.o {
      assert Dot(v, v) == 0.0 * 0.0;
      SqrtOfSquare(ctx.lib, 0.0);
    }
  }
}
