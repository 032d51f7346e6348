/**
 * The Catmull-Rom spline of the keyframe programs (hw6 Bunny_Frames, I_Bar
 * and Part2 keyframe.cpp, which hold the same find_interpolated_value).
 *
 * Between control values p1 and p2, with p0 before and p3 after, the value
 * at u in [0, 1] is (1, u, u², u³) · (B · p), where B is the Catmull-Rom
 * basis of tension 0, halved.
 */
module CatmullRom {
  import opened LinAlg

  /** B / 2, with B = [[0, 2, 0, 0], [−1, 0, 1, 0], [2, −5, 4, −1], [−1, 3, −3, 1]]. */
  const Basis: Mat4 := Mat4(
    Vec4(0.0, 1.0, 0.0, 0.0),
    Vec4(-0.5, 0.0, 0.5, 0.0),
    Vec4(1.0, -2.5, 2.0, -0.5),
    Vec4(-0.5, 1.5, -1.5, 0.5))

  /** find_interpolated_value(p, u): the row (1, u, u², u³) times B · p. */
  function InterpolatedValue(p: Vec4, u: real): real
  {
    Dot4(Vec4(1.0, u, u * u, u * u * u), Apply(Basis, p))
  }

  /** The spline passes through p1 at u = 0 and through p2 at u = 1. */
  lemma InterpolatedValueEnds(p: Vec4)
    ensures InterpolatedValue(p, 0.0) == p.y
    ensures InterpolatedValue(p, 1.0) == p.z
  {
  }

  /** Four equal control values give that value for every u. */
  lemma InterpolatedValueConstant(c: real, u: real)
    ensures InterpolatedValue(Vec4(c, c, c, c), u) == c
  {
    var k := Apply(Basis, Vec4(c, c, c, c));
    assert k == Vec4(c, 0.0, 0.0, 0.0);
  }

  /** The spline through four points, one coordinate at a time. */
  function InterpolatedVec3(p0: Vec3, p1: Vec3, p2: Vec3, p3: Vec3, u: real): Vec3
  {
    Vec3(
      InterpolatedValue(Vec4(p0.x, p1.x, p2.x, p3.x), u),
      InterpolatedValue(Vec4(p0.y, p1.y, p2.y, p3.y), u),
      InterpolatedValue(Vec4(p0.z, p1.z, p2.z, p3.z), u))
  }

  /** Each coordinate goes through p1 at u = 0 and p2 at u = 1, independently of the others. */
  lemma InterpolatedVec3Ends(p0: Vec3, p1: Vec3, p2: Vec3, p3: Vec3)
    ensures InterpolatedVec3(p0, p1, p2, p3, 0.0) == p1
    ensures InterpolatedVec3(p0, p1, p2, p3, 1.0) == p2
  {
    InterpolatedValueEnds(Vec4(p0.x, p1.x, p2.x, p3.x));
    InterpolatedValueEnds(Vec4(p0.y, p1.y, p2.y, p3.y));
    InterpolatedValueEnds(Vec4(p0.z, p1.z, p2.z, p3.z));
  }

  /** Four equal points give that point for every u. */
  lemma InterpolatedVec3Constant(c: Vec3, u: real)
    ensures InterpolatedVec3(c, c, c, c, u) == c
  {
    InterpolatedValueConstant(c.x, u);
    InterpolatedValueConstant(c.y, u);
    InterpolatedValueConstant(c.z, u);
  }

  // ---------------------------------------------------------------- the parameter steps

  /**
   * `for (float u = step; u < 1; u += step)` with step = 1 / n: over the
   * reals the loop visits u = k / n for k = 1 .. n − 1. This is the
   * parameter of the k-th interpolated frame; it lies strictly between the
   * two keyframes.
   */
  function StepParameter(k: nat, n: int): (u: real)
    requires 1 <= k < n
    ensures 0.0 < u < 1.0
  {
    k as real / n as real
  }
}
