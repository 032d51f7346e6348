/**
 * The quaternion class of the arcball and keyframe programs. hw3
 * quarternion.cpp, hw4 quaternion.cpp and hw6 Bunny_Frames quaternion.cpp
 * hold the same code (the last adds quar2rot); this module models it once.
 *
 * A quaternion is a real part s and a vector part v. All operations but
 * normalize build a new quaternion; normalize divides the receiver's four
 * components by its norm in place, modelled here as the quaternion it
 * leaves. sqrt, sin and cos are the library functions of Math.
 */
module Quaternions {
  import opened LinAlg

  datatype Quaternion = Quaternion(s: real, v: Vec3)

  /** quarternion_identity(): (1, 0, 0, 0). */
  const Identity: Quaternion := Quaternion(1.0, Zero3)

  const Zero: Quaternion := Quaternion(0.0, Zero3)

  /** add: componentwise sum. */
  function Add(a: Quaternion, b: Quaternion): Quaternion
  {
    Quaternion(a.s + b.s, Add3(a.v, b.v))
  }

  /** subtract: componentwise difference. */
  function Subtract(a: Quaternion, b: Quaternion): Quaternion
  {
    Quaternion(a.s - b.s, Sub3(a.v, b.v))
  }

  /** scalar_dot(c): every component times c. */
  function ScalarDot(q: Quaternion, c: real): Quaternion
  {
    Quaternion(q.s * c, Vec3(q.v.x * c, q.v.y * c, q.v.z * c))
  }

  /** dot: the Hamilton product, written out component by component. */
  function Mul(a: Quaternion, b: Quaternion): Quaternion
  {
    var dotV := a.v.x * b.v.x + a.v.y * b.v.y + a.v.z * b.v.z;
    var cx := a.v.y * b.v.z - a.v.z * b.v.y;
    var cy := a.v.z * b.v.x - a.v.x * b.v.z;
    var cz := a.v.x * b.v.y - a.v.y * b.v.x;
    Quaternion(a.s * b.s - dotV,
               Vec3(a.s * b.v.x + b.s * a.v.x + cx,
                    a.s * b.v.y + b.s * a.v.y + cy,
                    a.s * b.v.z + b.s * a.v.z + cz))
  }

  /** conjugate: the vector part negated. */
  function Conjugate(q: Quaternion): Quaternion
  {
    Quaternion(q.s, Vec3(-q.v.x, -q.v.y, -q.v.z))
  }

  /** The squared norm s² + x² + y² + z². */
  function NormSquared(q: Quaternion): real
  {
    q.s * q.s + q.v.x * q.v.x + q.v.y * q.v.y + q.v.z * q.v.z
  }

  /** norm(): the square root of the squared norm. */
  function Norm(m: Math, q: Quaternion): real
  {
    m.sqrt(NormSquared(q))
  }

  /** normalize(): every component divided by the norm; multiplying back by the norm gives q. */
  function Normalize(m: Math, q: Quaternion): (r: Quaternion)
    requires Norm(m, q) != 0.0
    ensures ScalarDot(r, Norm(m, q)) == q
  {
    var n := Norm(m, q);
    QuotientTimesDivisor(q.s, n);
    QuotientTimesDivisor(q.v.x, n);
    QuotientTimesDivisor(q.v.y, n);
    QuotientTimesDivisor(q.v.z, n);
    Quaternion(q.s / n, Vec3(q.v.x / n, q.v.y / n, q.v.z / n))
  }

  /** inverse(q): the conjugate scaled by 1 / (norm · norm). */
  function Inverse(m: Math, q: Quaternion): Quaternion
    requires Norm(m, q) != 0.0
  {
    ScalarDot(Conjugate(q), 1.0 / (Norm(m, q) * Norm(m, q)))
  }

  /** rot2quar(u, angle): (cos(angle / 2), sin(angle / 2) · u). */
  function Rot2Quar(m: Math, u: Vec3, angle: real): Quaternion
  {
    var c := m.sin(angle / 2.0);
    Quaternion(m.cos(angle / 2.0), Vec3(c * u.x, c * u.y, c * u.z))
  }

  // ---------------------------------------------------------------- laws

  /** Subtracting a quaternion from itself gives zero; scaling by 1 changes nothing; adding zero changes nothing. */
  lemma AdditiveLaws(q: Quaternion)
    ensures Subtract(q, q) == Zero
    ensures ScalarDot(q, 1.0) == q
    ensures Add(q, Zero) == q
  {
  }

  /** The product is s_a·s_b − v_a·v_b in the real part and s_a·v_b + s_b·v_a + v_a × v_b in the vector part. */
  lemma HamiltonForm(a: Quaternion, b: Quaternion)
    ensures Mul(a, b).s == a.s * b.s - Dot3(a.v, b.v)
    ensures Mul(a, b).v == Add3(Add3(Scale3(a.s, b.v), Scale3(b.s, a.v)), Cross3(a.v, b.v))
  {
  }

  /** The identity is a unit for the product on both sides. */
  lemma IdentityIsUnit(q: Quaternion)
    ensures Mul(Identity, q) == q
    ensures Mul(q, Identity) == q
  {
  }

  /** Conjugating twice gives q back. */
  lemma ConjugateInvolution(q: Quaternion)
    ensures Conjugate(Conjugate(q)) == q
  {
  }

  /** q times its conjugate is the real number |q|². */
  lemma TimesConjugate(q: Quaternion)
    ensures Mul(q, Conjugate(q)) == Quaternion(NormSquared(q), Zero3)
    ensures Mul(Conjugate(q), q) == Quaternion(NormSquared(q), Zero3)
  {
    var s, x, y, z := q.s, q.v.x, q.v.y, q.v.z;
    assert s * (-x) + s * x + (y * (-z) - z * (-y)) == 0.0;
    assert s * (-y) + s * y + (z * (-x) - x * (-z)) == 0.0;
    assert s * (-z) + s * z + (x * (-y) - y * (-x)) == 0.0;
    assert s * x + s * (-x) + ((-y) * z - (-z) * y) == 0.0;
    assert s * y + s * (-y) + ((-z) * x - (-x) * z) == 0.0;
    assert s * z + s * (-z) + ((-x) * y - (-y) * x) == 0.0;
  }

  /** Scaling the right factor scales the product. */
  lemma MulScaleRight(a: Quaternion, b: Quaternion, c: real)
    ensures Mul(a, ScalarDot(b, c)) == ScalarDot(Mul(a, b), c)
  {
    ScaleScalarPart(a, b, c);
    ScaleVectorPart(a, b, c);
  }

  lemma ScaleScalarPart(a: Quaternion, b: Quaternion, c: real)
    ensures Mul(a, ScalarDot(b, c)).s == Mul(a, b).s * c
  {
    Distributes(a.s, b.s, a.v.x, b.v.x, a.v.y, b.v.y, a.v.z, b.v.z, c);
  }

  lemma ScaleVectorPart(a: Quaternion, b: Quaternion, c: real)
    ensures Mul(a, ScalarDot(b, c)).v.x == Mul(a, b).v.x * c
    ensures Mul(a, ScalarDot(b, c)).v.y == Mul(a, b).v.y * c
    ensures Mul(a, ScalarDot(b, c)).v.z == Mul(a, b).v.z * c
  {
    Rotates(a.s, b.v.x, b.s, a.v.x, a.v.y, b.v.z, a.v.z, b.v.y, c);
    Rotates(a.s, b.v.y, b.s, a.v.y, a.v.z, b.v.x, a.v.x, b.v.z, c);
    Rotates(a.s, b.v.z, b.s, a.v.z, a.v.x, b.v.y, a.v.y, b.v.x, c);
  }

  /** The pattern of the scalar component of the product, scaled in its right factor. */
  lemma Distributes(a1: real, b1: real, a2: real, b2: real, a3: real, b3: real, a4: real, b4: real, c: real)
    ensures a1 * (b1 * c) - (a2 * (b2 * c) + a3 * (b3 * c) + a4 * (b4 * c)) == (a1 * b1 - (a2 * b2 + a3 * b3 + a4 * b4)) * c
  {
  }

  /** The pattern of a vector component of the product, scaled in its right factor. */
  lemma Rotates(a1: real, b1: real, b2: real, a2: real, a3: real, b3: real, a4: real, b4: real, c: real)
    ensures a1 * (b1 * c) + (b2 * c) * a2 + (a3 * (b3 * c) - a4 * (b4 * c)) == (a1 * b1 + b2 * a2 + (a3 * b3 - a4 * b4)) * c
  {
  }

  /** When the norm is not zero (sqrt a true square root), q times inverse(q) is the identity. */
  lemma InverseIsInverse(m: Math, q: Quaternion)
    requires SqrtLaw(m) && Norm(m, q) != 0.0
    ensures Mul(q, Inverse(m, q)) == Identity
  {
    var n := Norm(m, q);
    NormSquaredNonNegative(q);
    assert n * n == NormSquared(q);
    var c := 1.0 / (n * n);
    assert NormSquared(q) * c == 1.0;
    TimesConjugate(q);
    MulScaleRight(q, Conjugate(q), c);
  }

  /** The squared norm is never negative, so its square root is the norm. */
  lemma NormSquaredNonNegative(q: Quaternion)
    ensures NormSquared(q) >= 0.0
  {
    SquareNonNegative(q.s);
    SquareNonNegative(q.v.x);
    SquareNonNegative(q.v.y);
    SquareNonNegative(q.v.z);
  }

  lemma SquareNonNegative(x: real)
    ensures x * x >= 0.0
  {
    if x < 0.0 {
      assert x * x == (-x) * (-x);
    }
  }

  /** For a non-zero q (sqrt a true square root), normalize is defined and leaves a quaternion of norm 1. */
  lemma NormalizeIsUnit(m: Math, q: Quaternion)
    requires SqrtLaw(m) && NormSquared(q) != 0.0
    ensures Norm(m, q) != 0.0
    ensures NormSquared(Normalize(m, q)) == 1.0
  {
    NonZeroNorm(m, q);
    var n := Norm(m, q);
    NormSquaredNonNegative(q);
    assert n * n == NormSquared(q);
    var r := Normalize(m, q);
    assert ScalarDot(r, n) == q;
    SquareOfProduct(r.s, n);
    SquareOfProduct(r.v.x, n);
    SquareOfProduct(r.v.y, n);
    SquareOfProduct(r.v.z, n);
    var k := n * n;
    assert NormSquared(q) == NormSquared(r) * k;
    Cancel(NormSquared(r), k, NormSquared(q));
  }

  /** A non-zero squared norm has a non-zero square root. */
  lemma NonZeroNorm(m: Math, q: Quaternion)
    requires SqrtLaw(m) && NormSquared(q) != 0.0
    ensures Norm(m, q) != 0.0
  {
    NormSquaredNonNegative(q);
    var n := Norm(m, q);
    assert n * n == NormSquared(q);
  }

  lemma SquareOfProduct(a: real, n: real)
    ensures (a * n) * (a * n) == (a * a) * (n * n)
  {
  }

  /** t = a · k = k with t non-zero forces a = 1. */
  lemma Cancel(a: real, k: real, t: real)
    requires t != 0.0 && t == a * k && k == t
    ensures a == 1.0
  {
    assert a * t == t;
    assert (a - 1.0) * t == 0.0;
  }

  /** For a unit axis, with sin² + cos² = 1 at half the angle, rot2quar gives a unit quaternion. */
  lemma Rot2QuarIsUnit(m: Math, u: Vec3, angle: real)
    requires Dot3(u, u) == 1.0
    requires m.sin(angle / 2.0) * m.sin(angle / 2.0) + m.cos(angle / 2.0) * m.cos(angle / 2.0) == 1.0
    ensures NormSquared(Rot2Quar(m, u, angle)) == 1.0
  {
    var c := m.sin(angle / 2.0);
    var q := Rot2Quar(m, u, angle);
    assert q.v.x * q.v.x + q.v.y * q.v.y + q.v.z * q.v.z == (c * c) * Dot3(u, u);
  }

  // ---------------------------------------------------------------- quar2rot

  /** quar2rot (Bunny_Frames): the rotation matrix of q, with last row and column (0, 0, 0, 1). */
  function Quar2Rot(q: Quaternion): (r: Mat4)
    ensures r.r3 == Vec4(0.0, 0.0, 0.0, 1.0)
    ensures r.r0.w == 0.0 && r.r1.w == 0.0 && r.r2.w == 0.0
  {
    var qs, qx, qy, qz := q.s, q.v.x, q.v.y, q.v.z;
    Mat4(Vec4(1.0 - 2.0 * qy * qy - 2.0 * qz * qz, 2.0 * (qx * qy - qz * qs), 2.0 * (qx * qz + qy * qs), 0.0),
         Vec4(2.0 * (qx * qy + qz * qs), 1.0 - 2.0 * qx * qx - 2.0 * qz * qz, 2.0 * (qy * qz - qx * qs), 0.0),
         Vec4(2.0 * (qx * qz - qy * qs), 2.0 * (qy * qz + qx * qs), 1.0 - 2.0 * qx * qx - 2.0 * qy * qy, 0.0),
         Vec4(0.0, 0.0, 0.0, 1.0))
  }

  /** The identity quaternion gives the identity matrix. */
  lemma Quar2RotIdentity()
    ensures Quar2Rot(Identity) == LinAlg.Identity
  {
  }

  /**
   * The matrix of a quaternion leaves its own vector part (for a unit
   * quaternion, the rotation axis) where it is; in every row the terms in
   * the scalar part cancel, and so do the squares.
   */
  lemma Quar2RotFixesAxis(q: Quaternion)
    ensures Apply(Quar2Rot(q), Vec4(q.v.x, q.v.y, q.v.z, 0.0)) == Vec4(q.v.x, q.v.y, q.v.z, 0.0)
  {
    FirstRowFixesAxis(q);
    SecondRowFixesAxis(q);
    ThirdRowFixesAxis(q);
  }

  lemma FirstRowFixesAxis(q: Quaternion)
    ensures Dot4(Quar2Rot(q).r0, Vec4(q.v.x, q.v.y, q.v.z, 0.0)) == q.v.x
  {
    var qs, x, y, z := q.s, q.v.x, q.v.y, q.v.z;
    assert Dot4(Quar2Rot(q).r0, Vec4(x, y, z, 0.0))
        == (1.0 - 2.0 * y * y - 2.0 * z * z) * x + 2.0 * (x * y - z * qs) * y + 2.0 * (x * z + y * qs) * z + 0.0 * 0.0;
    AxisRowCancels(x, y, z, qs);
  }

  lemma SecondRowFixesAxis(q: Quaternion)
    ensures Dot4(Quar2Rot(q).r1, Vec4(q.v.x, q.v.y, q.v.z, 0.0)) == q.v.y
  {
    var qs, x, y, z := q.s, q.v.x, q.v.y, q.v.z;
    assert Dot4(Quar2Rot(q).r1, Vec4(x, y, z, 0.0))
        == 2.0 * (x * y + z * qs) * x + (1.0 - 2.0 * x * x - 2.0 * z * z) * y + 2.0 * (y * z - x * qs) * z + 0.0 * 0.0;
    AxisRowCancels(y, z, x, qs);
  }

  lemma ThirdRowFixesAxis(q: Quaternion)
    ensures Dot4(Quar2Rot(q).r2, Vec4(q.v.x, q.v.y, q.v.z, 0.0)) == q.v.z
  {
    var qs, x, y, z := q.s, q.v.x, q.v.y, q.v.z;
    assert Dot4(Quar2Rot(q).r2, Vec4(x, y, z, 0.0))
        == 2.0 * (x * z - y * qs) * x + 2.0 * (y * z + x * qs) * y + (1.0 - 2.0 * x * x - 2.0 * y * y) * z + 0.0 * 0.0;
    AxisRowCancels(z, x, y, qs);
  }

  /** One row of quar2rot against the axis, with p the row's own coordinate and u, w the next two in cyclic order. */
  lemma AxisRowCancels(p: real, u: real, w: real, s: real)
    ensures (1.0 - 2.0 * u * u - 2.0 * w * w) * p + 2.0 * (p * u - w * s) * u + 2.0 * (p * w + u * s) * w + 0.0 * 0.0 == p
    ensures 2.0 * (w * p + u * s) * w + (1.0 - 2.0 * w * w - 2.0 * u * u) * p + 2.0 * (p * u - w * s) * u + 0.0 * 0.0 == p
    ensures 2.0 * (u * p - w * s) * u + 2.0 * (w * p + u * s) * w + (1.0 - 2.0 * u * u - 2.0 * w * w) * p + 0.0 * 0.0 == p
  {
    calc {
      (1.0 - 2.0 * u * u - 2.0 * w * w) * p + 2.0 * (p * u - w * s) * u + 2.0 * (p * w + u * s) * w + 0.0 * 0.0;
      p - 2.0 * u * u * p - 2.0 * w * w * p + 2.0 * p * u * u - 2.0 * w * s * u + 2.0 * p * w * w + 2.0 * u * s * w;
      p;
    }
  }
}
