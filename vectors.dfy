/**
  The renderer's Vector3D over exact reals, and the part of the maths library
  whose definition is not part of this model (square root, real power,
  normalisation and the Vector3D-by-Vector3D product), kept abstract as an
  oracle record.
 */
module Vectors {

  datatype Vec3 = Vec3(x: real, y: real, z: real)

  const Zero: Vec3 := Vec3(0.0, 0.0, 0.0)

  /** M_PI written out as a decimal. */
  const Pi: real := 3.14159265358979323846

  function Add(a: Vec3, b: Vec3): Vec3 {
    Vec3(a.x + b.x, a.y + b.y, a.z + b.z)
  }

  function Sub(a: Vec3, b: Vec3): Vec3 {
    Vec3(a.x - b.x, a.y - b.y, a.z - b.z)
  }

  function Neg(a: Vec3): Vec3 {
    Vec3(-a.x, -a.y, -a.z)
  }

  /** Both `v * s` and `s * v` for a scalar s, and `v / d` as `Scale(v, 1 / d)`. */
  function Scale(v: Vec3, s: real): Vec3 {
    Vec3(v.x * s, v.y * s, v.z * s)
  }

  function Dot(a: Vec3, b: Vec3): real {
    a.x * b.x + a.y * b.y + a.z * b.z
  }

  /** `std::max(0.0, x)`: the clamp applied to every cosine term. */
  function MaxZero(x: real): (r: real)
    ensures 0.0 <= r && x <= r
    ensures r == x || r == 0.0
  {
    if 0.0 < x then x else 0.0
  }

  /**
    Division by a quantity the source does not guard. A zero divisor, which
    gives infinity or NaN in floating point, yields 0 here.
   */
  function Div(a: real, b: real): (q: real)
    ensures b == 0.0 ==> q == 0.0
  {
    if b == 0.0 then 0.0 else a / b
  }

  lemma MulNonNegative(a: real, b: real)
    requires 0.0 <= a && 0.0 <= b
    ensures 0.0 <= a * b
  {
  }

  /** The sum of k copies of v, added one at a time from Zero. */
  function Repeat(v: Vec3, k: nat): Vec3 {
    if k == 0 then Zero else Add(Repeat(v, k - 1), v)
  }

  lemma {:induction false} RepeatIsScale(v: Vec3, k: nat)
    ensures Repeat(v, k) == Scale(v, k as real)
  {
    if k > 0 {
      RepeatIsScale(v, k - 1);
    }
  }

  /** Adding N copies of v / N gives back v: the 1/N weight of an N-sample average. */
  lemma {:induction false} RepeatAverage(v: Vec3, n: nat)
    requires n > 0
    ensures Repeat(Scale(v, 1.0 / n as real), n) == v
  {
    RepeatIsScale(Scale(v, 1.0 / n as real), n);
    assert (1.0 / n as real) * (n as real) == 1.0;
  }

  /** Dividing the sum of n copies of v by n gives back v: an average of equal samples. */
  lemma RepeatThenAverage(v: Vec3, n: nat)
    requires n > 0
    ensures Scale(Repeat(v, n), 1.0 / n as real) == v
  {
    RepeatIsScale(v, n);
    ScaleScale(v, n as real, 1.0 / n as real);
    assert (n as real) * (1.0 / n as real) == 1.0;
  }

  /** The vectors of s added in order, from the first, starting at Zero. */
  function Sum(s: seq<Vec3>): Vec3 {
    if |s| == 0 then Zero else Add(Sum(s[..|s| - 1]), s[|s| - 1])
  }

  /** One more term of an accumulation loop: the prefix sum grows by the next element. */
  lemma SumStep(s: seq<Vec3>, i: nat)
    requires i < |s|
    ensures Sum(s[..i + 1]) == Add(Sum(s[..i]), s[i])
  {
    assert s[..i + 1][..i] == s[..i];
  }

  /** A sum whose every term is c is |s| copies of c. */
  lemma {:induction false} SumOfConstant(s: seq<Vec3>, c: Vec3)
    requires forall i :: 0 <= i < |s| ==> s[i] == c
    ensures Sum(s) == Repeat(c, |s|)
  {
    if |s| > 0 {
      SumOfConstant(s[..|s| - 1], c);
    }
  }

  /** A sum of black terms is black. */
  lemma {:induction false} SumOfZeros(s: seq<Vec3>)
    requires forall i :: 0 <= i < |s| ==> s[i] == Zero
    ensures Sum(s) == Zero
  {
    if |s| > 0 {
      SumOfZeros(s[..|s| - 1]);
    }
  }

  lemma AddAssociative(a: Vec3, b: Vec3, c: Vec3)
    ensures Add(Add(a, b), c) == Add(a, Add(b, c))
  {
  }

  lemma AddZero(a: Vec3)
    ensures Add(a, Zero) == a
  {
  }

  lemma ScaleCommutes(v: Vec3, s: real, t: real)
    ensures Scale(Scale(v, s), t) == Scale(Scale(v, t), s)
  {
  }

  lemma ScaleScale(v: Vec3, s: real, t: real)
    ensures Scale(Scale(v, s), t) == Scale(v, s * t)
  {
  }

  lemma ScaleZero(s: real)
    ensures Scale(Zero, s) == Zero
  {
  }

  /**
    The maths library the renderer links against. Only what a property needs
    is assumed about it, as a precondition of that property.
   */
  datatype MathLib = MathLib(
    sqrt: real -> real,                 // std::sqrt
    pow: (real, real) -> real,          // std::pow with a real exponent
    normalized: Vec3 -> Vec3,           // Vector3D::normalized
    mul: (Vec3, Vec3) -> Vec3)          // Vector3D * Vector3D

  /** `Vector3D::length`. */
  function Length(lib: MathLib, v: Vec3): real {
    lib.sqrt(Dot(v, v))
  }

  /** The square root returns the non-negative root of a non-negative argument. */
  ghost predicate SqrtSound(lib: MathLib) {
    forall x :: 0.0 <= x ==> 0.0 <= lib.sqrt(x) && lib.sqrt(x) * lib.sqrt(x) == x
  }

  lemma SqrtOfSquare(lib: MathLib, c: real)
    requires SqrtSound(lib)
    requires 0.0 <= c
    ensures lib.sqrt(c * c) == c
  {
    var s := lib.sqrt(c * c);
    assert 0.0 <= c * c;
    assert 0.0 <= s && s * s == c * c;
    assert (s - c) * (s + c) == s * s - c * c;
    if s + c == 0.0 {
      assert s == 0.0 && c == 0.0;
    } else {
      var p := s + c;
      assert (s - c) * p == 0.0;
      assert s - c == ((s - c) * p) / p;
    }
  }

  /** The product taken componentwise, the usual reading of the unseen operator. */
  ghost predicate ComponentwiseProduct(lib: MathLib) {
    forall a, b :: lib.mul(a, b) == Vec3(a.x * b.x, a.y * b.y, a.z * b.z)
  }

  /** A product with a black colour is black, which any componentwise product satisfies. */
  ghost predicate BlackAbsorbs(lib: MathLib) {
    forall v :: lib.mul(Zero, v) == Zero
  }

  lemma ComponentwiseAbsorbs(lib: MathLib)
    requires ComponentwiseProduct(lib)
    ensures BlackAbsorbs(lib)
  {
  }
}
