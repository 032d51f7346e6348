/**
 * The keyframes of the I-bar animation (hw6 Part2 frame.h and I_Bar
 * keyframe.cpp): a frame holds a translation t, a scaling s, a rotation
 * axis r with its angle in degrees, and the quaternion q of that rotation.
 * Between two keyframes t, s and q follow the Catmull-Rom spline; q is then
 * normalised and the axis and angle are read back from it.
 *
 * The I_Bar program includes its Frame from an include directory that is
 * not part of this model; the Frame here is the one of Part2/include/frame.h,
 * whose constructors I_Bar calls with the same arguments.
 */
module TransformFrames {
  import opened Wrappers
  import opened LinAlg
  import opened Quaternions
  import opened ObjWords
  import opened Streams
  import VectorHelpers
  import CatmullRom
  import opened FrameCycle

  /** Frame: id, keyframe flag, t, s, the axis r, the angle, and q. */
  datatype Frame = Frame(frameId: int, isKeyframe: bool, t: Vec3, s: Vec3, r: Vec3, angle: real, q: Quaternion)

  /** The three entries of a `float[3]`. */
  function Entries(a: array<real>): Vec3
    reads a
    requires a.Length == 3
  {
    Vec3(a[0], a[1], a[2])
  }

  // ---------------------------------------------------------------- frame.h

  /**
   * Frame(): id 0, not a keyframe, t, s and r all zero, angle 0, and q the
   * quaternion of a zero rotation about the zero axis, whose vector part
   * is zero.
   */
  function DefaultFrame(m: Math): (f: Frame)
    ensures f.frameId == 0 && !f.isKeyframe && f.angle == 0.0
    ensures f.t == Zero3 && f.s == Zero3 && f.r == Zero3
    ensures f.q.v == Zero3 && f.q.s == m.cos(0.0)
  {
    Frame(0, false, Zero3, Zero3, Zero3, 0.0, Rot2Quar(m, Zero3, 0.0))
  }

  /** The frame the keyframe constructor builds from the axis as given. */
  function Keyframe(m: Math, id: int, t: Vec3, s: Vec3, axis: Vec3, theta: real, isKeyframe: bool): Frame
    requires Norm3(m, axis) != 0.0
  {
    Frame(id, isKeyframe, t, s, axis, theta, Rot2Quar(m, VectorHelpers.DivideByNorm(m, axis), VectorHelpers.Deg2Rad(theta)))
  }

  /**
   * Frame(id, tn, sn, rn, theta, is_keyframe): copies t, s and the axis as
   * given, keeps the angle in degrees, then normalises the caller's axis
   * array in place and builds q from the unit axis and the angle in
   * radians.
   */
  method KeyframeFrame(m: Math, id: int, tn: array<real>, sn: array<real>, rn: array<real>, theta: real, isKeyframe: bool)
    returns (f: Frame)
    requires tn.Length == 3 && sn.Length == 3 && rn.Length == 3
    requires rn != tn && rn != sn
    requires Norm3(m, Entries(rn)) != 0.0
    modifies rn
    ensures f == Keyframe(m, id, Entries(tn), Entries(sn), old(Entries(rn)), theta, isKeyframe)
    ensures f.r == old(Entries(rn))
    ensures Entries(rn) == VectorHelpers.DivideByNorm(m, old(Entries(rn)))
  {
    f := Frame(id, isKeyframe, Entries(tn), Entries(sn), Entries(rn), theta, Zero);
    VectorHelpers.NormalizeArray(m, rn);
    f := f.(q := Rot2Quar(m, Entries(rn), VectorHelpers.Deg2Rad(theta)));
  }

  /**
   * With a true sqrt, and sin² + cos² = 1 at half the angle in radians, a
   * keyframe's quaternion is a unit quaternion whatever the length of the
   * axis it was given.
   */
  lemma KeyframeQuaternionIsUnit(m: Math, id: int, t: Vec3, s: Vec3, axis: Vec3, theta: real, isKeyframe: bool)
    requires SqrtLaw(m) && Dot3(axis, axis) > 0.0
    requires var h := VectorHelpers.Deg2Rad(theta) / 2.0; m.sin(h) * m.sin(h) + m.cos(h) * m.cos(h) == 1.0
    ensures Norm3(m, axis) != 0.0
    ensures NormSquared(Keyframe(m, id, t, s, axis, theta, isKeyframe).q) == 1.0
  {
    VectorHelpers.DivideByNormIsNormalized(m, axis);
    var u := VectorHelpers.DivideByNorm(m, axis);
    UnitAfterDivide(m, axis);
    Rot2QuarIsUnit(m, u, VectorHelpers.Deg2Rad(theta));
  }

  /** A vector of positive length, divided by its length, has length 1. */
  lemma UnitAfterDivide(m: Math, v: Vec3)
    requires SqrtLaw(m) && Dot3(v, v) > 0.0
    ensures Norm3(m, v) != 0.0 && Dot3(VectorHelpers.DivideByNorm(m, v), VectorHelpers.DivideByNorm(m, v)) == 1.0
  {
    VectorHelpers.DivideByNormIsNormalized(m, v);
    var n := Norm3(m, v);
    var u := VectorHelpers.DivideByNorm(m, v);
    assert Scale3(n, u) == v;
    ScaledDot(n, u);
    assert n * n == Dot3(v, v);
    Cancel(Dot3(u, u), n * n, Dot3(v, v));
  }

  /** A vector r that d > 0 scales to a vector of squared length d² has length 1. */
  lemma ScaledUnit(d: real, r: Vec3, v: Vec3)
    requires d > 0.0 && Scale3(d, r) == v && Dot3(v, v) == d * d
    ensures Dot3(r, r) == 1.0
  {
    calc {
      Dot3(v, v);
    ==
      d * d;
    >  { PositiveSquare(d); }
      0.0;
    }
    ScaledDot(d, r);
    Cancel(Dot3(r, r), d * d, Dot3(v, v));
  }

  /** A positive number has a positive square. */
  lemma PositiveSquare(d: real)
    requires d > 0.0
    ensures d * d > 0.0
  {
  }

  /** The squared length of c·u is c² times that of u. */
  lemma ScaledDot(c: real, u: Vec3)
    ensures Dot3(Scale3(c, u), Scale3(c, u)) == Dot3(u, u) * (c * c)
  {
  }

  /**
   * Frame(id, tn, sn, rn, theta, qn, is_keyframe): copies t, s and r,
   * keeps the angle, and stores qn unchanged; the arrays are only read.
   */
  method FrameWithQuaternion(id: int, tn: array<real>, sn: array<real>, rn: array<real>, theta: real, qn: Quaternion, isKeyframe: bool)
    returns (f: Frame)
    requires tn.Length == 3 && sn.Length == 3 && rn.Length == 3
    ensures f == Frame(id, isKeyframe, Entries(tn), Entries(sn), Entries(rn), theta, qn)
  {
    f := Frame(id, isKeyframe, Vec3(tn[0], tn[1], tn[2]), Vec3(sn[0], sn[1], sn[2]), Vec3(rn[0], rn[1], rn[2]), theta, qn);
  }

  // ---------------------------------------------------------------- interpolation

  /** find_interpolated_quaternion: the spline through the four quaternions, component by component. */
  function InterpolatedQuaternion(k0: Frame, k1: Frame, k2: Frame, k3: Frame, u: real): Quaternion
  {
    Quaternion(CatmullRom.InterpolatedValue(Vec4(k0.q.s, k1.q.s, k2.q.s, k3.q.s), u),
               CatmullRom.InterpolatedVec3(k0.q.v, k1.q.v, k2.q.v, k3.q.v, u))
  }

  /** The interpolated quaternion is k1's at u = 0 and k2's at u = 1. */
  lemma InterpolatedQuaternionEnds(k0: Frame, k1: Frame, k2: Frame, k3: Frame)
    ensures InterpolatedQuaternion(k0, k1, k2, k3, 0.0) == k1.q
    ensures InterpolatedQuaternion(k0, k1, k2, k3, 1.0) == k2.q
  {
    CatmullRom.InterpolatedValueEnds(Vec4(k0.q.s, k1.q.s, k2.q.s, k3.q.s));
    CatmullRom.InterpolatedVec3Ends(k0.q.v, k1.q.v, k2.q.v, k3.q.v);
  }

  /** find_interpolated_translation: fills t with the spline through the four translations. */
  method FindInterpolatedTranslation(t: array<real>, k0: Frame, k1: Frame, k2: Frame, k3: Frame, u: real)
    requires t.Length == 3
    modifies t
    ensures Entries(t) == CatmullRom.InterpolatedVec3(k0.t, k1.t, k2.t, k3.t, u)
  {
    t[0] := CatmullRom.InterpolatedValue(Vec4(k0.t.x, k1.t.x, k2.t.x, k3.t.x), u);
    t[1] := CatmullRom.InterpolatedValue(Vec4(k0.t.y, k1.t.y, k2.t.y, k3.t.y), u);
    t[2] := CatmullRom.InterpolatedValue(Vec4(k0.t.z, k1.t.z, k2.t.z, k3.t.z), u);
  }

  /** find_interpolated_scaling: fills s with the spline through the four scalings. */
  method FindInterpolatedScaling(s: array<real>, k0: Frame, k1: Frame, k2: Frame, k3: Frame, u: real)
    requires s.Length == 3
    modifies s
    ensures Entries(s) == CatmullRom.InterpolatedVec3(k0.s, k1.s, k2.s, k3.s, u)
  {
    s[0] := CatmullRom.InterpolatedValue(Vec4(k0.s.x, k1.s.x, k2.s.x, k3.s.x), u);
    s[1] := CatmullRom.InterpolatedValue(Vec4(k0.s.y, k1.s.y, k2.s.y, k3.s.y), u);
    s[2] := CatmullRom.InterpolatedValue(Vec4(k0.s.z, k1.s.z, k2.s.z, k3.s.z), u);
  }

  /** 10e-6: below this sin(angle / 2) the rotation is taken to be none. */
  const AxisEpsilon: real := 0.00001

  /**
   * The axis find_interpolated_rotation reads back from q: (0, 0, 1) when
   * sqrt(1 − s²) is below 10e-6, and otherwise the vector part divided by
   * that square root, so that scaling the axis back by it gives the
   * vector part.
   */
  function RotationAxis(m: Math, q: Quaternion): (r: Vec3)
    ensures m.sqrt(1.0 - q.s * q.s) < AxisEpsilon ==> r == Vec3(0.0, 0.0, 1.0)
    ensures m.sqrt(1.0 - q.s * q.s) >= AxisEpsilon ==> Scale3(m.sqrt(1.0 - q.s * q.s), r) == q.v
  {
    var d := m.sqrt(1.0 - q.s * q.s);
    if d < AxisEpsilon then Vec3(0.0, 0.0, 1.0)
    else
      Vec3(q.v.x / d, q.v.y / d, q.v.z / d)
  }

  /** find_interpolated_rotation: fills r with the axis read back from q. */
  method FindInterpolatedRotation(m: Math, r: array<real>, q: Quaternion)
    requires r.Length == 3
    modifies r
    ensures Entries(r) == RotationAxis(m, q)
  {
    var d := m.sqrt(1.0 - q.s * q.s);
    ghost var axis := RotationAxis(m, q);
    if d < AxisEpsilon {
      r[0] := 0.0;
      r[1] := 0.0;
      r[2] := 1.0;
    } else {
      r[0] := q.v.x / d;
      r[1] := q.v.y / d;
      r[2] := q.v.z / d;
      assert Entries(r) == axis;
    }
  }

  /**
   * For a unit quaternion (sqrt a true square root) with a rotation above
   * the threshold, the axis read back has length 1.
   */
  lemma RotationAxisIsUnit(m: Math, q: Quaternion)
    requires SqrtLaw(m) && NormSquared(q) == 1.0 && m.sqrt(1.0 - q.s * q.s) >= AxisEpsilon
    ensures Dot3(RotationAxis(m, q), RotationAxis(m, q)) == 1.0
  {
    ScaledBackIsUnit(m, q, RotationAxis(m, q));
  }

  /** A vector that sqrt(1 − s²) ≥ 10e-6 scales to the vector part of a unit q has length 1. */
  lemma ScaledBackIsUnit(m: Math, q: Quaternion, r: Vec3)
    requires SqrtLaw(m) && NormSquared(q) == 1.0 && m.sqrt(1.0 - q.s * q.s) >= AxisEpsilon
    requires Scale3(m.sqrt(1.0 - q.s * q.s), r) == q.v
    ensures Dot3(r, r) == 1.0
  {
    var w := 1.0 - q.s * q.s;
    var d := m.sqrt(w);
    NormSquaredNonNegative(Quaternion(0.0, q.v));
    assert Dot3(q.v, q.v) == w;
    assert d * d == w;
    calc {
      Dot3(q.v, q.v);
    ==
      w;
    ==
      d * d;
    }
    ScaledUnit(d, r, q.v);
  }

  /** The frame find_interpolated_frame returns, when the interpolated quaternion is not zero. */
  function InterpolatedFrame(m: Math, k0: Frame, k1: Frame, k2: Frame, k3: Frame, u: real, id: int): Frame
    requires Norm(m, InterpolatedQuaternion(k0, k1, k2, k3, u)) != 0.0
  {
    var q := Normalize(m, InterpolatedQuaternion(k0, k1, k2, k3, u));
    Frame(id, false,
          CatmullRom.InterpolatedVec3(k0.t, k1.t, k2.t, k3.t, u),
          CatmullRom.InterpolatedVec3(k0.s, k1.s, k2.s, k3.s, u),
          RotationAxis(m, q), VectorHelpers.Rad2Deg(2.0 * m.acos(q.s)), q)
  }

  /**
   * find_interpolated_frame: t and s on their splines, q the normalised
   * spline quaternion, the axis read back from q and the angle
   * 2·acos(q.s) in degrees; the frame has the given id and is not a
   * keyframe.
   */
  method FindInterpolatedFrame(m: Math, k0: Frame, k1: Frame, k2: Frame, k3: Frame, u: real, id: int) returns (f: Frame)
    requires Norm(m, InterpolatedQuaternion(k0, k1, k2, k3, u)) != 0.0
    ensures f == InterpolatedFrame(m, k0, k1, k2, k3, u, id)
  {
    var t := new real[3];
    FindInterpolatedTranslation(t, k0, k1, k2, k3, u);
    var s := new real[3];
    FindInterpolatedScaling(s, k0, k1, k2, k3, u);
    var q := InterpolatedQuaternion(k0, k1, k2, k3, u);
    q := Normalize(m, q);
    var r := new real[3];
    FindInterpolatedRotation(m, r, q);
    var angle := VectorHelpers.Rad2Deg(2.0 * m.acos(q.s));
    f := FrameWithQuaternion(id, t, s, r, angle, q, false);
  }

  /**
   * At u = 0 the interpolated frame has k1's translation and scaling, and
   * when k1's quaternion is a unit one (sqrt a true square root), k1's
   * quaternion too.
   */
  lemma InterpolatedFrameAtStart(m: Math, k0: Frame, k1: Frame, k2: Frame, k3: Frame, id: int)
    requires SqrtLaw(m) && NormSquared(k1.q) == 1.0
    ensures Norm(m, InterpolatedQuaternion(k0, k1, k2, k3, 0.0)) != 0.0
    ensures InterpolatedFrame(m, k0, k1, k2, k3, 0.0, id).t == k1.t
    ensures InterpolatedFrame(m, k0, k1, k2, k3, 0.0, id).s == k1.s
    ensures InterpolatedFrame(m, k0, k1, k2, k3, 0.0, id).q == k1.q
  {
    InterpolatedQuaternionEnds(k0, k1, k2, k3);
    CatmullRom.InterpolatedVec3Ends(k0.t, k1.t, k2.t, k3.t);
    CatmullRom.InterpolatedVec3Ends(k0.s, k1.s, k2.s, k3.s);
    UnitNormalizes(m, k1.q);
  }

  /** Squaring keeps a non-negative number on its side of 1. */
  lemma SquareOrder(n: real)
    requires n >= 0.0
    ensures n < 1.0 ==> n * n < 1.0
    ensures n > 1.0 ==> n * n > 1.0
  {
    if n < 1.0 {
      assert n * n <= n * 1.0;
    } else if n > 1.0 {
      assert n * n > n * 1.0;
    }
  }

  /** Normalising a unit quaternion leaves it as it is. */
  lemma UnitNormalizes(m: Math, q: Quaternion)
    requires SqrtLaw(m) && NormSquared(q) == 1.0
    ensures Norm(m, q) == 1.0 && Normalize(m, q) == q
  {
    var n := Norm(m, q);
    assert n >= 0.0 && n * n == 1.0;
    SquareOrder(n);
  }

  // ---------------------------------------------------------------- generate_interpolated_frames

  /** keyframes[((i − 1) + size) % size]: the previous keyframe, wrapping to the last from the first. */
  function Previous(i: nat, size: nat): (j: nat)
    requires i < size
    ensures j < size
    ensures i > 0 ==> j == i - 1
    ensures i == 0 ==> j == size - 1
  {
    ((i - 1) + size) % size
  }

  /** keyframes[(i + 2) % size]: the keyframe after next, wrapping round past the last. */
  function AfterNext(i: nat, size: nat): (j: nat)
    requires i < size
    ensures j < size
    ensures i + 2 < size ==> j == i + 2
    ensures i + 2 >= size ==> j == i + 2 - size || (size == 1 && j == 0)
  {
    (i + 2) % size
  }

  /** The number of frames the u loop makes between keyframes i and i + 1: n − 1 for a gap of n ≥ 1 ids. */
  function StepsBetween(kf: seq<Frame>, i: nat): nat
    requires i < |kf| - 1
  {
    var n := kf[i + 1].frameId - kf[i].frameId;
    if n >= 1 then n - 1 else 0
  }

  /** The spline quaternion of the j-th frame between keyframes i and i + 1, before it is normalised. */
  function StepQuaternion(kf: seq<Frame>, i: nat, j: nat): Quaternion
    requires i < |kf| - 1 && 1 <= j <= StepsBetween(kf, i)
  {
    var n := kf[i + 1].frameId - kf[i].frameId;
    InterpolatedQuaternion(kf[Previous(i, |kf|)], kf[i], kf[i + 1], kf[AfterNext(i, |kf|)], CatmullRom.StepParameter(j, n))
  }

  /**
   * The keyframes generate_interpolated_frames can work on: ids that never
   * go down (a step of 1 / n with n < 0 never reaches 1), and no spline
   * quaternion that is zero (normalize would divide by zero).
   */
  predicate Keyframes(m: Math, kf: seq<Frame>)
  {
    (forall i :: 0 <= i < |kf| - 1 ==> kf[i].frameId <= kf[i + 1].frameId) &&
    (forall i, j :: 0 <= i < |kf| - 1 && 1 <= j <= StepsBetween(kf, i) ==> Norm(m, StepQuaternion(kf, i, j)) != 0.0)
  }

  /** The j-th frame between keyframes i and i + 1, at u = j / n and with id kf[i].frameId + j. */
  function Inbetween(m: Math, kf: seq<Frame>, i: nat, j: nat): Frame
    requires Keyframes(m, kf) && i < |kf| - 1 && 1 <= j <= StepsBetween(kf, i)
  {
    var n := kf[i + 1].frameId - kf[i].frameId;
    assert Norm(m, StepQuaternion(kf, i, j)) != 0.0;
    InterpolatedFrame(m, kf[Previous(i, |kf|)], kf[i], kf[i + 1], kf[AfterNext(i, |kf|)], CatmullRom.StepParameter(j, n), kf[i].frameId + j)
  }

  /** The first j frames between keyframes i and i + 1. */
  function InbetweensUpTo(m: Math, kf: seq<Frame>, i: nat, j: nat): (fs: seq<Frame>)
    requires Keyframes(m, kf) && i < |kf| - 1 && j <= StepsBetween(kf, i)
    ensures |fs| == j
    decreases j
  {
    if j == 0 then [] else InbetweensUpTo(m, kf, i, j - 1) + [Inbetween(m, kf, i, j)]
  }

  /** One pass of the outer loop: keyframe i, then every frame between it and keyframe i + 1. */
  function Segment(m: Math, kf: seq<Frame>, i: nat): seq<Frame>
    requires Keyframes(m, kf) && i < |kf| - 1
  {
    [kf[i]] + InbetweensUpTo(m, kf, i, StepsBetween(kf, i))
  }

  /** The segments of the first k keyframes, in order. */
  function Segments(m: Math, kf: seq<Frame>, k: nat): seq<Frame>
    requires Keyframes(m, kf) && (k == 0 || k < |kf|)
    decreases k
  {
    if k == 0 then [] else Segments(m, kf, k - 1) + Segment(m, kf, k - 1)
  }

  /** Everything generate_interpolated_frames appends: one segment per keyframe but the last, and not the last keyframe. */
  function Generated(m: Math, kf: seq<Frame>): seq<Frame>
    requires Keyframes(m, kf)
  {
    Segments(m, kf, if |kf| == 0 then 0 else |kf| - 1)
  }

  /**
   * generate_interpolated_frames: for each keyframe but the last, appends
   * the keyframe and the frames between it and the next one, whose outer
   * controls wrap round the list. The last keyframe itself is not
   * appended. The frame on screen does not change.
   */
  method GenerateInterpolatedFrames(m: Math, anim: Animation<Frame>, kf: seq<Frame>)
    requires Keyframes(m, kf)
    modifies anim
    ensures anim.allFrames == old(anim.allFrames) + Generated(m, kf)
    ensures anim.current == old(anim.current)
  {
    var size := |kf|;
    var i := 0;
    ghost var start := anim.allFrames;
    while i < size - 1
      invariant i == 0 || i < size
      invariant anim.allFrames == start + Segments(m, kf, i)
      invariant anim.current == old(anim.current)
    {
      AddSegment(m, anim, kf, i);
      SegmentsStep(m, kf, start, i);
      i := i + 1;
    }
    assert i == if size == 0 then 0 else size - 1;
  }

  /** Appending segment i to the segments before it gives the segments up to i + 1. */
  lemma SegmentsStep(m: Math, kf: seq<Frame>, start: seq<Frame>, i: nat)
    requires Keyframes(m, kf) && i < |kf| - 1
    ensures start + Segments(m, kf, i) + Segment(m, kf, i) == start + Segments(m, kf, i + 1)
  {
  }

  /** The body of the outer loop: appends keyframe i and the frames between it and keyframe i + 1. */
  method AddSegment(m: Math, anim: Animation<Frame>, kf: seq<Frame>, i: nat)
    requires Keyframes(m, kf) && i < |kf| - 1
    modifies anim
    ensures anim.allFrames == old(anim.allFrames) + Segment(m, kf, i)
    ensures anim.current == old(anim.current)
  {
    var size := |kf|;
    var k1 := kf[i];
    var k2 := kf[i + 1];
    var k0 := kf[Previous(i, size)];
    var k3 := kf[AfterNext(i, size)];
    var n := k2.frameId - k1.frameId;
    anim.allFrames := anim.allFrames + [k1];
    var j := 1;
    while j < n
      invariant 1 <= j && (n >= 1 ==> j <= n) && (n < 1 ==> j == 1)
      invariant anim.allFrames == old(anim.allFrames) + [k1] + InbetweensUpTo(m, kf, i, j - 1)
      invariant anim.current == old(anim.current)
    {
      AppendInbetween(m, anim, kf, i, j, k0, k1, k2, k3, n);
      j := j + 1;
    }
  }

  /** The body of the u loop: the frame at u = j / n, interpolated from the four controls, appended. */
  method AppendInbetween(m: Math, anim: Animation<Frame>, kf: seq<Frame>, i: nat, j: nat, k0: Frame, k1: Frame, k2: Frame, k3: Frame, n: int)
    requires Keyframes(m, kf) && i < |kf| - 1 && 1 <= j < n == kf[i + 1].frameId - kf[i].frameId
    requires k0 == kf[Previous(i, |kf|)] && k1 == kf[i] && k2 == kf[i + 1] && k3 == kf[AfterNext(i, |kf|)]
    modifies anim
    ensures anim.allFrames == old(anim.allFrames) + [Inbetween(m, kf, i, j)]
    ensures anim.current == old(anim.current)
  {
    assert j <= StepsBetween(kf, i);
    assert Norm(m, StepQuaternion(kf, i, j)) != 0.0;
    var f := FindInterpolatedFrame(m, k0, k1, k2, k3, j as real / n as real, k1.frameId + j);
    anim.allFrames := anim.allFrames + [f];
  }

  // ---------------------------------------------------------------- frame numbering

  /** Keyframe ids that strictly increase. */
  predicate Increasing(kf: seq<Frame>)
  {
    forall i :: 0 <= i < |kf| - 1 ==> kf[i].frameId < kf[i + 1].frameId
  }

  /** The frames between two keyframes carry the ids that follow the first one's, and none is a keyframe. */
  lemma {:induction false} InbetweenIds(m: Math, kf: seq<Frame>, i: nat, j: nat)
    requires Keyframes(m, kf) && i < |kf| - 1 && j <= StepsBetween(kf, i)
    ensures forall p :: 0 <= p < j ==> InbetweensUpTo(m, kf, i, j)[p].frameId == kf[i].frameId + p + 1
    ensures forall p :: 0 <= p < j ==> !InbetweensUpTo(m, kf, i, j)[p].isKeyframe
    decreases j
  {
    if j > 0 {
      InbetweenIds(m, kf, i, j - 1);
    }
  }

  /** With increasing ids, segment i holds kf[i + 1].frameId − kf[i].frameId frames numbered on from kf[i]'s id. */
  lemma SegmentIds(m: Math, kf: seq<Frame>, i: nat)
    requires Keyframes(m, kf) && Increasing(kf) && i < |kf| - 1
    ensures |Segment(m, kf, i)| == kf[i + 1].frameId - kf[i].frameId
    ensures forall q :: 0 <= q < |Segment(m, kf, i)| ==> Segment(m, kf, i)[q].frameId == kf[i].frameId + q
  {
    var seg := Segment(m, kf, i);
    InbetweenIds(m, kf, i, StepsBetween(kf, i));
    forall q | 0 <= q < |seg|
      ensures seg[q].frameId == kf[i].frameId + q
    {
      if q > 0 {
        assert seg[q] == InbetweensUpTo(m, kf, i, StepsBetween(kf, i))[q - 1];
      }
    }
  }

  /** Increasing ids: a keyframe's id is below every later keyframe's. */
  lemma {:induction false} IdsIncrease(kf: seq<Frame>, j: nat, i: nat)
    requires Increasing(kf) && j < i < |kf|
    ensures kf[j].frameId < kf[i].frameId
    decreases i - j
  {
    if j + 1 < i {
      IdsIncrease(kf, j + 1, i);
    }
  }

  /** With increasing ids, the frames up to keyframe k are numbered from the first keyframe's id on without a gap. */
  lemma {:induction false} SegmentsNumbered(m: Math, kf: seq<Frame>, k: nat)
    requires Keyframes(m, kf) && Increasing(kf) && k <= |kf| - 1
    ensures |Segments(m, kf, k)| == kf[k].frameId - kf[0].frameId
    ensures forall p :: 0 <= p < |Segments(m, kf, k)| ==> Segments(m, kf, k)[p].frameId == kf[0].frameId + p
    decreases k
  {
    if k > 0 {
      SegmentsNumbered(m, kf, k - 1);
      SegmentIds(m, kf, k - 1);
      var front, seg := Segments(m, kf, k - 1), Segment(m, kf, k - 1);
      assert Segments(m, kf, k) == front + seg;
      NumberedConcat(front, seg, kf[0].frameId, kf[k - 1].frameId, kf[k].frameId);
    }
  }

  /** Frames numbered a .. b − 1 followed by frames numbered b .. c − 1 are numbered a .. c − 1. */
  lemma NumberedConcat(front: seq<Frame>, seg: seq<Frame>, a: int, b: int, c: int)
    requires |front| == b - a && forall p :: 0 <= p < |front| ==> front[p].frameId == a + p
    requires |seg| == c - b && forall q :: 0 <= q < |seg| ==> seg[q].frameId == b + q
    ensures |front + seg| == c - a && forall p :: 0 <= p < |front + seg| ==> (front + seg)[p].frameId == a + p
  {
    forall p | 0 <= p < |front + seg|
      ensures (front + seg)[p].frameId == a + p
    {
      if p >= |front| {
        assert (front + seg)[p] == seg[p - |front|];
      }
    }
  }

  /** With increasing ids, keyframe j < k sits in the frames up to keyframe k at its own id's place. */
  lemma {:induction false} SegmentsKeyframes(m: Math, kf: seq<Frame>, k: nat)
    requires Keyframes(m, kf) && Increasing(kf) && k <= |kf| - 1
    ensures forall j :: 0 <= j < k ==>
              0 <= kf[j].frameId - kf[0].frameId < |Segments(m, kf, k)| && Segments(m, kf, k)[kf[j].frameId - kf[0].frameId] == kf[j]
    decreases k
  {
    if k > 0 {
      var i := k - 1;
      SegmentsKeyframes(m, kf, i);
      SegmentsNumbered(m, kf, i);
      SegmentIds(m, kf, i);
      var front, seg := Segments(m, kf, i), Segment(m, kf, i);
      assert Segments(m, kf, k) == front + seg;
      forall j | 0 <= j < k
        ensures 0 <= kf[j].frameId - kf[0].frameId < |front + seg|
        ensures (front + seg)[kf[j].frameId - kf[0].frameId] == kf[j]
      {
        if j < i {
          IdsIncrease(kf, j, i);
        }
        if 0 < j {
          IdsIncrease(kf, 0, j);
        }
      }
    }
  }

  /**
   * With increasing keyframe ids, the generated frames are numbered from
   * the first keyframe's id up to one below the last one's, without a gap
   * or a repeat; every keyframe but the last sits at the place its id
   * names, and no frame carries the last keyframe's id.
   */
  lemma GeneratedIds(m: Math, kf: seq<Frame>)
    requires Keyframes(m, kf) && Increasing(kf) && |kf| >= 1
    ensures |Generated(m, kf)| == kf[|kf| - 1].frameId - kf[0].frameId
    ensures forall p :: 0 <= p < |Generated(m, kf)| ==> Generated(m, kf)[p].frameId == kf[0].frameId + p
    ensures forall p :: 0 <= p < |Generated(m, kf)| ==> Generated(m, kf)[p].frameId != kf[|kf| - 1].frameId
    ensures forall j :: 0 <= j < |kf| - 1 ==>
              0 <= kf[j].frameId - kf[0].frameId < |Generated(m, kf)| && Generated(m, kf)[kf[j].frameId - kf[0].frameId] == kf[j]
  {
    SegmentsNumbered(m, kf, |kf| - 1);
    SegmentsKeyframes(m, kf, |kf| - 1);
  }

  // ---------------------------------------------------------------- the script

  /**
   * The reader's variables num_frames, frame_id, t, s, r and angle. The
   * program declares them without a value; the model starts them at 0.
   */
  datatype Reading = Reading(numFrames: int, frameId: int, t: Vec3, s: Vec3, r: Vec3, angle: real)

  const Unset: Reading := Reading(0, 0, Zero3, Zero3, Zero3, 0.0)

  /** The three numbers that end at tokens[last]. */
  function Triple(p: Parsers, tokens: seq<string>, last: nat): Vec3
    requires 2 <= last < |tokens|
  {
    Vec3(p.strtod(tokens[last - 2]), p.strtod(tokens[last - 1]), p.strtod(tokens[last]))
  }

  /** A line of four or more tokens whose first is "rotation". */
  predicate IsRotation(tokens: seq<string>)
  {
    |tokens| >= 4 && tokens[0] == "rotation"
  }

  /** A rotation line's axis, the three numbers before the last, is not zero, so it can be normalised. */
  predicate AxisReadable(m: Math, p: Parsers, tokens: seq<string>)
  {
    IsRotation(tokens) ==> Norm3(m, Triple(p, tokens, |tokens| - 2)) != 0.0
  }

  /**
   * One line: a single token sets num_frames; two tokens set frame_id from
   * the second; four or more set t or s from the last three when the first
   * is "translation" or "scale", and for "rotation" set the axis from the
   * three before the last and the angle from the last (in radians when
   * toRadians), then add a keyframe. The keyframe constructor leaves the
   * axis variable normalised. Any other line changes nothing.
   */
  function ReadLine(m: Math, p: Parsers, toRadians: bool, st: Reading, tokens: seq<string>): (Reading, seq<Frame>)
    requires AxisReadable(m, p, tokens)
  {
    var n := |tokens|;
    if n == 1 then (st.(numFrames := p.atoi(tokens[0])), [])
    else if n == 2 then (st.(frameId := p.atoi(tokens[1])), [])
    else if n >= 4 && tokens[0] == "translation" then (st.(t := Triple(p, tokens, n - 1)), [])
    else if n >= 4 && tokens[0] == "scale" then (st.(s := Triple(p, tokens, n - 1)), [])
    else if IsRotation(tokens) then
      var axis := Triple(p, tokens, n - 2);
      var angle := if toRadians then VectorHelpers.Deg2Rad(p.strtod(tokens[n - 1])) else p.strtod(tokens[n - 1]);
      (st.(r := VectorHelpers.DivideByNorm(m, axis), angle := angle), [Keyframe(m, st.frameId, st.t, st.s, axis, angle, true)])
    else (st, [])
  }

  /** Every line of the script has a readable axis. */
  predicate AxesReadable(m: Math, p: Parsers, lines: seq<string>)
  {
    forall i :: 0 <= i < |lines| ==> AxisReadable(m, p, Split(lines[i], ' '))
  }

  /** The variables and keyframes once the lines have been read, from st and the keyframes so far. */
  function ScriptFrom(m: Math, p: Parsers, toRadians: bool, lines: seq<string>, st: Reading, acc: seq<Frame>): (Reading, seq<Frame>)
    requires AxesReadable(m, p, lines)
    decreases |lines|
  {
    if lines == [] then (st, acc)
    else
      assert AxisReadable(m, p, Split(lines[0], ' '));
      var (st', fs) := ReadLine(m, p, toRadians, st, Split(lines[0], ' '));
      ScriptFrom(m, p, toRadians, lines[1..], st', acc + fs)
  }

  /** What reading the whole script leaves: num_frames and the keyframes, in the order of their rotation lines. */
  function Script(m: Math, p: Parsers, toRadians: bool, lines: seq<string>): (int, seq<Frame>)
    requires AxesReadable(m, p, lines)
  {
    var (st, kf) := ScriptFrom(m, p, toRadians, lines, Unset, []);
    (st.numFrames, kf)
  }

  /** The number of rotation lines in the script. */
  function RotationLines(lines: seq<string>): nat
  {
    if lines == [] then 0
    else (if IsRotation(Split(lines[0], ' ')) then 1 else 0) + RotationLines(lines[1..])
  }

  /**
   * Reading keeps the keyframes already read, adds one per rotation line,
   * and every keyframe added is the one the keyframe constructor builds
   * from its own id, t, s, axis and angle.
   */
  lemma {:induction false} ScriptFromKeyframes(m: Math, p: Parsers, toRadians: bool, lines: seq<string>, st: Reading, acc: seq<Frame>)
    requires AxesReadable(m, p, lines)
    ensures |ScriptFrom(m, p, toRadians, lines, st, acc).1| == |acc| + RotationLines(lines)
    ensures ScriptFrom(m, p, toRadians, lines, st, acc).1[..|acc|] == acc
    ensures forall k :: |acc| <= k < |ScriptFrom(m, p, toRadians, lines, st, acc).1| ==>
              var f := ScriptFrom(m, p, toRadians, lines, st, acc).1[k];
              f.isKeyframe && Norm3(m, f.r) != 0.0 && f == Keyframe(m, f.frameId, f.t, f.s, f.r, f.angle, true)
    decreases |lines|
  {
    if lines != [] {
      var tokens := Split(lines[0], ' ');
      assert AxisReadable(m, p, tokens);
      var (st', fs) := ReadLine(m, p, toRadians, st, tokens);
      assert AxesReadable(m, p, lines[1..]) by {
        forall i | 0 <= i < |lines[1..]|
          ensures AxisReadable(m, p, Split(lines[1..][i], ' '))
        {
          assert lines[1..][i] == lines[i + 1];
        }
      }
      ScriptFromKeyframes(m, p, toRadians, lines[1..], st', acc + fs);
      var out := ScriptFrom(m, p, toRadians, lines[1..], st', acc + fs).1;
      assert out[..|acc|] == (out[..|acc + fs|])[..|acc|];
    }
  }

  /** The body of the reading loop: one line's tokens applied to the variables, the keyframe constructor called on a rotation line. */
  method ReadLineInto(m: Math, p: Parsers, toRadians: bool, tokens: seq<string>,
                      t: array<real>, s: array<real>, r: array<real>,
                      numFrames: int, frameId: int, angle: real, keyframes: seq<Frame>)
    returns (numFrames': int, frameId': int, angle': real, keyframes': seq<Frame>)
    requires t.Length == 3 && s.Length == 3 && r.Length == 3
    requires t != s && t != r && s != r
    requires AxisReadable(m, p, tokens)
    modifies t, s, r
    ensures var (st, fs) := ReadLine(m, p, toRadians, old(Reading(numFrames, frameId, Entries(t), Entries(s), Entries(r), angle)), tokens);
            Reading(numFrames', frameId', Entries(t), Entries(s), Entries(r), angle') == st && keyframes' == keyframes + fs
  {
    numFrames', frameId', angle', keyframes' := numFrames, frameId, angle, keyframes;
    var n := |tokens|;
    if n == 1 {
      numFrames' := p.atoi(tokens[0]);
    } else if n == 2 {
      frameId' := p.atoi(tokens[1]);
    } else if n >= 4 {
      var kind := tokens[0];
      if kind == "translation" {
        t[0] := p.strtod(tokens[n - 3]);
        t[1] := p.strtod(tokens[n - 2]);
        t[2] := p.strtod(tokens[n - 1]);
      } else if kind == "scale" {
        s[0] := p.strtod(tokens[n - 3]);
        s[1] := p.strtod(tokens[n - 2]);
        s[2] := p.strtod(tokens[n - 1]);
      } else if kind == "rotation" {
        r[0] := p.strtod(tokens[n - 4]);
        r[1] := p.strtod(tokens[n - 3]);
        r[2] := p.strtod(tokens[n - 2]);
        angle' := if toRadians then VectorHelpers.Deg2Rad(p.strtod(tokens[n - 1])) else p.strtod(tokens[n - 1]);
        assert Entries(r) == Triple(p, tokens, n - 2);
        var f := KeyframeFrame(m, frameId, t, s, r, angle', true);
        keyframes' := keyframes' + [f];
      }
    }
  }

  /**
   * The reading loop of main: splits each line at single spaces and reads
   * it, from variables without a value (0 here) and no keyframes.
   */
  method ReadScript(m: Math, p: Parsers, toRadians: bool, lines: seq<string>) returns (numFrames: int, keyframes: seq<Frame>)
    requires AxesReadable(m, p, lines)
    ensures (numFrames, keyframes) == Script(m, p, toRadians, lines)
  {
    var t := new real[3];
    var s := new real[3];
    var r := new real[3];
    t[0], t[1], t[2] := 0.0, 0.0, 0.0;
    s[0], s[1], s[2] := 0.0, 0.0, 0.0;
    r[0], r[1], r[2] := 0.0, 0.0, 0.0;
    var frameId := 0;
    var angle := 0.0;
    numFrames := 0;
    keyframes := [];
    var i := 0;
    while i < |lines|
      invariant 0 <= i <= |lines|
      invariant AxesReadable(m, p, lines[i..])
      invariant ScriptFrom(m, p, toRadians, lines[i..], Reading(numFrames, frameId, Entries(t), Entries(s), Entries(r), angle), keyframes)
                == ScriptFrom(m, p, toRadians, lines, Unset, [])
    {
      assert lines[i..][0] == lines[i];
      assert lines[i..][1..] == lines[i + 1..];
      var tokens := StrSplit(lines[i], ' ');
      numFrames, frameId, angle, keyframes := ReadLineInto(m, p, toRadians, tokens, t, s, r, numFrames, frameId, angle, keyframes);
      i := i + 1;
    }
  }

  /**
   * The closing keyframe: keyframe 0 again, numbered num_frames, after the
   * others, so that the animation ends where it began. None when no
   * keyframe was read, where the program would read keyframes[0] of an
   * empty list.
   */
  function Closed(numFrames: int, kf: seq<Frame>): Option<seq<Frame>>
  {
    if |kf| == 0 then None else Some(kf + [kf[0].(frameId := numFrames)])
  }

  /**
   * main: reads the script, closes the keyframe list, empties all_frames,
   * generates every frame and shows frame 0. A script that cannot be
   * opened, or that has no keyframe, leaves the animation as it was.
   */
  method LoadScript(m: Math, p: Parsers, anim: Animation<Frame>, files: map<string, string>, name: string) returns (ok: bool)
    requires name in files ==> AxesReadable(m, p, Split(files[name], '\n'))
    requires name in files ==>
               var (n, kf) := Script(m, p, false, Split(files[name], '\n'));
               Closed(n, kf).Some? ==> Keyframes(m, Closed(n, kf).value)
    modifies anim
    ensures ok <==> name in files && |Script(m, p, false, Split(files[name], '\n')).1| > 0
    ensures ok ==> var (n, kf) := Script(m, p, false, Split(files[name], '\n'));
                   anim.allFrames == Generated(m, Closed(n, kf).value) && anim.current == 0
    ensures !ok ==> anim.allFrames == old(anim.allFrames) && anim.current == old(anim.current)
  {
    if name !in files {
      return false;
    }
    var lines := StrSplit(files[name], '\n');
    var numFrames, keyframes := ReadScript(m, p, false, lines);
    if |keyframes| == 0 {
      return false;
    }
    var last := keyframes[0];
    last := last.(frameId := numFrames);
    keyframes := keyframes + [last];
    anim.allFrames := [];
    GenerateInterpolatedFrames(m, anim, keyframes);
    anim.current := 0;
    ok := true;
  }

  /**
   * A script whose keyframe ids increase up to num_frames plays frames
   * first id .. num_frames − 1 once each, keyframe by keyframe in place,
   * and the closing copy is never shown: after the last frame the cycle
   * comes back to frame 0, keyframe 0 itself.
   */
  lemma ClosedScriptFrames(m: Math, numFrames: int, kf: seq<Frame>)
    requires |kf| > 0 && Keyframes(m, Closed(numFrames, kf).value) && Increasing(Closed(numFrames, kf).value)
    ensures |Generated(m, Closed(numFrames, kf).value)| == numFrames - kf[0].frameId
    ensures forall p :: 0 <= p < |Generated(m, Closed(numFrames, kf).value)| ==>
              Generated(m, Closed(numFrames, kf).value)[p].frameId == kf[0].frameId + p
    ensures Generated(m, Closed(numFrames, kf).value)[0] == kf[0]
  {
    var c := Closed(numFrames, kf).value;
    GeneratedIds(m, c);
    assert c[|c| - 1].frameId == numFrames;
    IdsIncrease(c, 0, |c| - 1);
  }
}
