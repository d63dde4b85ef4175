/**
 * Points, matrices and the scalar helpers that the curve code borrows from
 * glm and three.js. Coordinates are real numbers; floating-point rounding is
 * not modelled.
 */
module Geometry {

  datatype Vec3 = Vec3(x: real, y: real, z: real)

  /** `glm::vec3(0.0f)` and `new Vector3(0.0)`. */
  const Origin: Vec3 := Vec3(0.0, 0.0, 0.0)

  /**
   * The straight-line distance between two points (`glm::distance`,
   * `Vector3.distanceTo`). Its formula needs a square root, so the model
   * takes it as a parameter: any function that is never negative.
   */
  type Chord = f: (Vec3, Vec3) -> real | forall a, b :: f(a, b) >= 0.0
    witness (a: Vec3, b: Vec3) => 0.0

  /** `glm::mix(a, b, t)` and `a.lerp(b, t)`: a + (b - a) * t. */
  function Mix(a: Vec3, b: Vec3, t: real): (r: Vec3)
    ensures t == 0.0 ==> r == a
    ensures t == 1.0 ==> r == b
  {
    Vec3(a.x + (b.x - a.x) * t, a.y + (b.y - a.y) * t, a.z + (b.z - a.z) * t)
  }

  function Min(a: real, b: real): real { if a <= b then a else b }

  function Max(a: real, b: real): real { if a >= b then a else b }

  /** `MathUtils.clamp(v, lo, hi)` and `std::max(std::min(v, hi), lo)`. */
  function Clamp(v: real, lo: real, hi: real): (r: real)
    requires lo <= hi
    ensures lo <= r <= hi
    ensures lo <= v <= hi ==> r == v
    ensures v < lo ==> r == lo
    ensures hi < v ==> r == hi
  {
    Max(lo, Min(hi, v))
  }

  /** `MathUtils.clamp` on indices. */
  function ClampInt(v: int, lo: int, hi: int): (r: int)
    requires lo <= hi
    ensures lo <= r <= hi
    ensures lo <= v <= hi ==> r == v
    ensures v < lo ==> r == lo
    ensures hi < v ==> r == hi
  {
    if v < lo then lo else if hi < v then hi else v
  }

  /** Where x falls against a positive gap: the ratio the interpolations clamp to [0, 1]. */
  lemma RatioBounds(x: real, gap: real)
    requires gap > 0.0
    ensures x <= 0.0 ==> x / gap <= 0.0
    ensures 0.0 <= x <= gap ==> 0.0 <= x / gap <= 1.0
    ensures gap <= x ==> x / gap >= 1.0
    ensures (x / gap) * gap == x
  {
  }

  /** 2^-52: `std::numeric_limits<double>::epsilon()` and `Number.EPSILON`. */
  const DoubleEpsilon: real := 1.0 / 4503599627370496.0

  /**
   * The rotation-and-scale part of a `Matrix4`. Its arithmetic (lookAt,
   * quaternion slerp) is not part of this model, so it is carried as data.
   */
  datatype Orientation = Orientation(elements: seq<real>)

  /** A `Matrix4` seen as an orientation placed at a position. */
  datatype Matrix = Matrix(orientation: Orientation, position: Vec3)

  /** `new Matrix4()`: no rotation, placed at the origin. */
  const Identity: Matrix :=
    Matrix(Orientation([1.0, 0.0, 0.0, 0.0, 1.0, 0.0, 0.0, 0.0, 1.0]), Origin)

  /** `m.clone().setPosition(p)`. */
  function SetPosition(m: Matrix, p: Vec3): (r: Matrix)
    ensures r.orientation == m.orientation && r.position == p
  {
    m.(position := p)
  }
}
