/**
  The area light source: a parallelogram (the `Square` shape it wraps) whose
  material gives its emission.
 */
module Lights {
  import opened Vectors
  import opened Materials

  /**
    The backing shape: a corner and two edge vectors. Its normal and area are
    computed by the shape's own code, which is not part of this model, and are
    carried here as given values.
   */
  datatype Square = Square(corner: Vec3, v1: Vec3, v2: Vec3, normal: Vec3, area: real, material: Material)

  datatype AreaLightSource = AreaLightSource(square: Square)

  /** The light emits what its square's material emits. */
  function GetIntensity(l: AreaLightSource): (le: Vec3)
    ensures le == EmissiveRadiance(l.square.material)
    ensures l.square.material.Mirror? || l.square.material.Transmissive? ==> le == Zero
  {
    EmissiveRadiance(l.square.material)
  }

  function GetNormal(l: AreaLightSource): Vec3 {
    l.square.normal
  }

  function GetArea(l: AreaLightSource): real {
    l.square.area
  }

  /** Left unfinished in the source: every call returns the origin. */
  function SampleLightPosition(l: AreaLightSource): (p: Vec3)
    ensures p == Zero
  {
    Vec3(0.0, 0.0, 0.0)
  }

  /** `(double)std::rand() / RAND_MAX` for a draw in [0, RAND_MAX]. */
  function Variate(draw: int, randMax: int): (u: real)
    requires 0 < randMax && 0 <= draw <= randMax
    ensures 0.0 <= u <= 1.0
    ensures draw == 0 ==> u == 0.0
    ensures draw == randMax ==> u == 1.0
  {
    draw as real / randMax as real
  }

  /** `corner + u * v1 + v * v2`. */
  function PointAt(s: Square, u: real, v: real): Vec3 {
    Add(Add(s.corner, Scale(s.v1, u)), Scale(s.v2, v))
  }

  /** The closed parallelogram spanned by corner, v1 and v2. */
  ghost predicate InParallelogram(p: Vec3, s: Square) {
    exists u, v :: 0.0 <= u <= 1.0 && 0.0 <= v <= 1.0 && p == PointAt(s, u, v)
  }

  /**
    A random point of the light, from two draws of the C random generator:
    it lies in the parallelogram, and the extreme draws give its corners.
   */
  function GenerateRandomPosition(l: AreaLightSource, drawU: int, drawV: int, randMax: int): (p: Vec3)
    requires 0 < randMax && 0 <= drawU <= randMax && 0 <= drawV <= randMax
    ensures InParallelogram(p, l.square)
    ensures drawU == 0 && drawV == 0 ==> p == l.square.corner
    ensures drawU == randMax && drawV == randMax ==> p == Add(Add(l.square.corner, l.square.v1), l.square.v2)
  {
    var u := Variate(drawU, randMax);
    var v := Variate(drawV, randMax);
    assert 0.0 <= u <= 1.0 && 0.0 <= v <= 1.0;
    PointAt(l.square, u, v)
  }
}
