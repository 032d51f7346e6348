/**
 * Small fixed-size linear algebra shared by every homework: 3- and
 * 4-vectors, row-major 4x4 matrices, the translation and scaling matrices,
 * the two orders in which the programs compose a list of transforms, and the
 * numeric library functions the programs call (passed in as a `Math` value,
 * since their results are not modelled).
 */
module LinAlg {

  datatype Vec3 = Vec3(x: real, y: real, z: real)
  datatype Vec4 = Vec4(x: real, y: real, z: real, w: real)
  /** A 4x4 matrix, stored as its four rows. */
  datatype Mat4 = Mat4(r0: Vec4, r1: Vec4, r2: Vec4, r3: Vec4)

  /** M_PI from math.h. */
  const PI: real := 3.14159265358979323846

  /**
   * The library functions the programs call. Their values are not modelled;
   * a member that needs a law about one of them says so in its `requires`.
   * `slopeZeroNegative` stands for a floating-point detail the reals do not
   * carry: whether the ray tracer's slope g'(t), for the ray with the given
   * origin and direction at time t on the superquadric with the given
   * exponents, is -0 rather than +0 when it is zero.
   */
  datatype Math = Math(
    sqrt: real -> real,
    pow: (real, real) -> real,
    sin: real -> real,
    cos: real -> real,
    acos: real -> real,
    inverse: Mat4 -> Mat4,
    slopeZeroNegative: (Vec3, Vec3, real, real, real) -> bool)

  /** sqrt returns the non-negative square root of a non-negative argument. */
  ghost predicate SqrtLaw(m: Math)
  {
    forall x: real :: x >= 0.0 ==> m.sqrt(x) >= 0.0 && m.sqrt(x) * m.sqrt(x) == x
  }

  /** Under that law the square root of 1 is 1. */
  lemma SqrtOfOne(m: Math)
    requires SqrtLaw(m)
    ensures m.sqrt(1.0) == 1.0
  {
    var s := m.sqrt(1.0);
    var d := s - 1.0;
    assert (s + 1.0) * d == s * s - 1.0;
    calc {
      d;
      ((s + 1.0) * d) / (s + 1.0);
      0.0 / (s + 1.0);
      0.0;
    }
  }

  // ---------------------------------------------------------------- 3-vectors

  function Add3(a: Vec3, b: Vec3): Vec3 { Vec3(a.x + b.x, a.y + b.y, a.z + b.z) }
  function Sub3(a: Vec3, b: Vec3): Vec3 { Vec3(a.x - b.x, a.y - b.y, a.z - b.z) }
  function Scale3(c: real, v: Vec3): Vec3 { Vec3(c * v.x, c * v.y, c * v.z) }
  function Dot3(a: Vec3, b: Vec3): real { a.x * b.x + a.y * b.y + a.z * b.z }
  function Cross3(a: Vec3, b: Vec3): Vec3
  {
    Vec3(a.y * b.z - a.z * b.y, a.z * b.x - a.x * b.z, a.x * b.y - a.y * b.x)
  }
  const Zero3: Vec3 := Vec3(0.0, 0.0, 0.0)

  /** The Euclidean length, through a square-root function. */
  function Length3(sqrt: real -> real, v: Vec3): real { sqrt(Dot3(v, v)) }

  /** The Euclidean length, through the library sqrt. */
  function Norm3(m: Math, v: Vec3): real { Length3(m.sqrt, v) }

  /**
   * Eigen's `normalized()`: v divided by its length, or v itself when its
   * squared length is not positive.
   */
  function Normalized(m: Math, v: Vec3): (r: Vec3)
    requires SqrtLaw(m)
    ensures Dot3(v, v) <= 0.0 ==> r == v
    ensures Dot3(v, v) > 0.0 ==> Norm3(m, v) > 0.0 && Scale3(Norm3(m, v), r) == v
  {
    var n2 := Dot3(v, v);
    if n2 > 0.0 then
      var s := m.sqrt(n2);
      assert s != 0.0;
      QuotientTimesDivisor(v.x, s);
      QuotientTimesDivisor(v.y, s);
      QuotientTimesDivisor(v.z, s);
      Vec3(v.x / s, v.y / s, v.z / s)
    else
      v
  }

  lemma QuotientTimesDivisor(x: real, s: real)
    requires s != 0.0
    ensures s * (x / s) == x
  {
  }

  // ---------------------------------------------------------------- 4-vectors

  function Add4(a: Vec4, b: Vec4): Vec4 { Vec4(a.x + b.x, a.y + b.y, a.z + b.z, a.w + b.w) }
  function Scale4(c: real, v: Vec4): Vec4 { Vec4(c * v.x, c * v.y, c * v.z, c * v.w) }
  function Dot4(a: Vec4, b: Vec4): real { a.x * b.x + a.y * b.y + a.z * b.z + a.w * b.w }

  /** A point in homogeneous coordinates (w = 1). */
  function Point(p: Vec3): Vec4 { Vec4(p.x, p.y, p.z, 1.0) }
  function Head(v: Vec4): Vec3 { Vec3(v.x, v.y, v.z) }

  // ---------------------------------------------------------------- matrices

  const Identity: Mat4 := Mat4(Vec4(1.0, 0.0, 0.0, 0.0), Vec4(0.0, 1.0, 0.0, 0.0),
                               Vec4(0.0, 0.0, 1.0, 0.0), Vec4(0.0, 0.0, 0.0, 1.0))

  /** The matrix-vector product M·v. */
  function Apply(m: Mat4, v: Vec4): Vec4
  {
    Vec4(Dot4(m.r0, v), Dot4(m.r1, v), Dot4(m.r2, v), Dot4(m.r3, v))
  }

  /** Row r of A, times B: a combination of B's rows. */
  function RowTimes(r: Vec4, b: Mat4): Vec4
  {
    Add4(Add4(Scale4(r.x, b.r0), Scale4(r.y, b.r1)), Add4(Scale4(r.z, b.r2), Scale4(r.w, b.r3)))
  }

  /** The matrix product A·B. */
  function Mul(a: Mat4, b: Mat4): Mat4
  {
    Mat4(RowTimes(a.r0, b), RowTimes(a.r1, b), RowTimes(a.r2, b), RowTimes(a.r3, b))
  }

  /** The upper-left 3x3 block of M applied to d (translation is ignored). */
  function Block3(m: Mat4, d: Vec3): Vec3
  {
    Vec3(m.r0.x * d.x + m.r0.y * d.y + m.r0.z * d.z,
         m.r1.x * d.x + m.r1.y * d.y + m.r1.z * d.z,
         m.r2.x * d.x + m.r2.y * d.y + m.r2.z * d.z)
  }

  /** The translation matrix by d. */
  function Translation(d: Vec3): (t: Mat4)
    ensures forall p :: Apply(t, Point(p)) == Point(Add3(p, d))
    ensures forall v :: Block3(t, v) == v
  {
    Mat4(Vec4(1.0, 0.0, 0.0, d.x), Vec4(0.0, 1.0, 0.0, d.y),
         Vec4(0.0, 0.0, 1.0, d.z), Vec4(0.0, 0.0, 0.0, 1.0))
  }

  /** v with each of its first three coordinates multiplied by the matching factor in s. */
  function Stretch(s: Vec3, v: Vec4): Vec4
  {
    Vec4(s.x * v.x, s.y * v.y, s.z * v.z, v.w)
  }

  /** The scaling matrix diag(s.x, s.y, s.z, 1). */
  function Scaling(s: Vec3): (t: Mat4)
    ensures forall v :: Apply(t, v) == Stretch(s, v)
  {
    Mat4(Vec4(s.x, 0.0, 0.0, 0.0), Vec4(0.0, s.y, 0.0, 0.0),
         Vec4(0.0, 0.0, s.z, 0.0), Vec4(0.0, 0.0, 0.0, 1.0))
  }

  /**
   * The axis-angle (Rodrigues) rotation by theta radians about the axis u,
   * written for a unit u, with k = 1 - cos theta: an affine matrix whose
   * upper-left block is u·uᵀ·k + cos theta·I + sin theta·[u]ₓ.
   */
  function Rotation(m: Math, u: Vec3, theta: real): (r: Mat4)
    ensures r.r3 == Vec4(0.0, 0.0, 0.0, 1.0)
    ensures r.r0.w == 0.0 && r.r1.w == 0.0 && r.r2.w == 0.0
  {
    var c := m.cos(theta);
    var s := m.sin(theta);
    Mat4(RotationRow0(u.x, u.y, u.z, c, s), RotationRow1(u.x, u.y, u.z, c, s),
         RotationRow2(u.x, u.y, u.z, c, s), Vec4(0.0, 0.0, 0.0, 1.0))
  }

  /** The first three rows of the rotation matrix, for the axis (x, y, z), cosine c and sine s. */
  function RotationRow0(x: real, y: real, z: real, c: real, s: real): Vec4
  {
    Vec4(x * x + (1.0 - x * x) * c, x * y * (1.0 - c) - z * s, x * z * (1.0 - c) + y * s, 0.0)
  }

  function RotationRow1(x: real, y: real, z: real, c: real, s: real): Vec4
  {
    Vec4(y * x * (1.0 - c) + z * s, y * y + (1.0 - y * y) * c, y * z * (1.0 - c) - x * s, 0.0)
  }

  function RotationRow2(x: real, y: real, z: real, c: real, s: real): Vec4
  {
    Vec4(z * x * (1.0 - c) - y * s, z * y * (1.0 - c) + x * s, z * z + (1.0 - z * z) * c, 0.0)
  }

  /** A zero angle gives the identity, whatever the axis. */
  lemma RotationByZero(m: Math, u: Vec3)
    requires m.cos(0.0) == 1.0 && m.sin(0.0) == 0.0
    ensures Rotation(m, u, 0.0) == Identity
  {
  }

  /** A rotation about a unit axis leaves every point of the axis where it is. */
  lemma RotationFixesAxis(m: Math, u: Vec3, theta: real, w: real)
    requires Dot3(u, u) == 1.0
    ensures Apply(Rotation(m, u, theta), Vec4(u.x, u.y, u.z, w)) == Vec4(u.x, u.y, u.z, w)
  {
    AxisRows(u.x, u.y, u.z, m.cos(theta), m.sin(theta), w);
  }

  /**
   * Each row dotted with the axis, as a polynomial: the row's own axis
   * coordinate p gives p·|u|²·(1 - c) + p·c.
   */
  lemma AxisRow0Expand(x: real, y: real, z: real, c: real, s: real, w: real)
    ensures Dot4(RotationRow0(x, y, z, c, s), Vec4(x, y, z, w)) == x * (x * x + y * y + z * z) * (1.0 - c) + x * c
  {
    var k := 1.0 - c;
    assert (x * x + (1.0 - x * x) * c) * x == x * x * x * k + x * c;
    assert (x * y * k - z * s) * y == x * y * y * k - y * z * s;
    assert (x * z * k + y * s) * z == x * z * z * k + y * z * s;
    assert x * (x * x + y * y + z * z) * k == x * x * x * k + x * y * y * k + x * z * z * k;
  }

  lemma AxisRow1Expand(x: real, y: real, z: real, c: real, s: real, w: real)
    ensures Dot4(RotationRow1(x, y, z, c, s), Vec4(x, y, z, w)) == y * (x * x + y * y + z * z) * (1.0 - c) + y * c
  {
    var k := 1.0 - c;
    assert (y * x * k + z * s) * x == x * x * y * k + x * z * s;
    assert (y * y + (1.0 - y * y) * c) * y == y * y * y * k + y * c;
    assert (y * z * k - x * s) * z == y * z * z * k - x * z * s;
    assert y * (x * x + y * y + z * z) * k == x * x * y * k + y * y * y * k + y * z * z * k;
  }

  lemma AxisRow2Expand(x: real, y: real, z: real, c: real, s: real, w: real)
    ensures Dot4(RotationRow2(x, y, z, c, s), Vec4(x, y, z, w)) == z * (x * x + y * y + z * z) * (1.0 - c) + z * c
  {
    var k := 1.0 - c;
    assert (z * x * k - y * s) * x == x * x * z * k - x * y * s;
    assert (z * y * k + x * s) * y == y * y * z * k + x * y * s;
    assert (z * z + (1.0 - z * z) * c) * z == z * z * z * k + z * c;
    assert z * (x * x + y * y + z * z) * k == x * x * z * k + y * y * z * k + z * z * z * k;
  }

  /** With a unit length, p·n·(1 - c) + p·c is p. */
  lemma UnitLength(p: real, n: real, c: real)
    requires n == 1.0
    ensures p * n * (1.0 - c) + p * c == p
  {
  }

  /** Each row dotted with the unit axis gives the matching coordinate of the axis back. */
  lemma AxisRows(x: real, y: real, z: real, c: real, s: real, w: real)
    requires x * x + y * y + z * z == 1.0
    ensures Dot4(RotationRow0(x, y, z, c, s), Vec4(x, y, z, w)) == x
    ensures Dot4(RotationRow1(x, y, z, c, s), Vec4(x, y, z, w)) == y
    ensures Dot4(RotationRow2(x, y, z, c, s), Vec4(x, y, z, w)) == z
  {
    assert Dot4(RotationRow0(x, y, z, c, s), Vec4(x, y, z, w)) == x by {
      AxisRow0Expand(x, y, z, c, s, w);
      UnitLength(x, x * x + y * y + z * z, c);
    }
    assert Dot4(RotationRow1(x, y, z, c, s), Vec4(x, y, z, w)) == y by {
      AxisRow1Expand(x, y, z, c, s, w);
      UnitLength(y, x * x + y * y + z * z, c);
    }
    assert Dot4(RotationRow2(x, y, z, c, s), Vec4(x, y, z, w)) == z by {
      AxisRow2Expand(x, y, z, c, s, w);
      UnitLength(z, x * x + y * y + z * z, c);
    }
  }

  const Zero4: Vec4 := Vec4(0.0, 0.0, 0.0, 0.0)

  /** Scaling by 1 and by 0, and adding the zero vector. */
  lemma ScaleByUnitOrZero(v: Vec4)
    ensures Scale4(1.0, v) == v && Scale4(0.0, v) == Zero4
    ensures Add4(v, Zero4) == v && Add4(Zero4, v) == v
  {
  }

  /** The identity is a two-sided unit of the product and fixes every vector. */
  lemma IdentityIsUnit(m: Mat4, v: Vec4)
    ensures Mul(Identity, m) == m && Mul(m, Identity) == m
    ensures Apply(Identity, v) == v
  {
    ScaleByUnitOrZero(m.r0);
    ScaleByUnitOrZero(m.r1);
    ScaleByUnitOrZero(m.r2);
    ScaleByUnitOrZero(m.r3);
    assert Identity == Mat4(Vec4(1.0, 0.0, 0.0, 0.0), Vec4(0.0, 1.0, 0.0, 0.0),
                            Vec4(0.0, 0.0, 1.0, 0.0), Vec4(0.0, 0.0, 0.0, 1.0));
    assert RowTimes(Identity.r0, m) == m.r0;
    assert RowTimes(Identity.r1, m) == m.r1;
    assert RowTimes(Identity.r2, m) == m.r2;
    assert RowTimes(Identity.r3, m) == m.r3;
    assert RowTimes(m.r0, Identity) == m.r0;
    assert RowTimes(m.r1, Identity) == m.r1;
    assert RowTimes(m.r2, Identity) == m.r2;
    assert RowTimes(m.r3, Identity) == m.r3;
  }

  /** The identity fixes every vector. */
  lemma ApplyIdentity(v: Vec4)
    ensures Apply(Identity, v) == v
  {
  }

  /** A zero translation and a unit scaling are both the identity. */
  lemma TrivialTransformsAreIdentity()
    ensures Translation(Zero3) == Identity
    ensures Scaling(Vec3(1.0, 1.0, 1.0)) == Identity
  {
  }

  /** Row r of A·B, dotted with v, is row r of A dotted with B·v. */
  lemma RowTimesDot(r: Vec4, b: Mat4, v: Vec4)
    ensures Dot4(RowTimes(r, b), v) == Dot4(r, Apply(b, v))
  {
    var s0, s1, s2, s3 := Scale4(r.x, b.r0), Scale4(r.y, b.r1), Scale4(r.z, b.r2), Scale4(r.w, b.r3);
    ScaleDot(r.x, b.r0, v);
    ScaleDot(r.y, b.r1, v);
    ScaleDot(r.z, b.r2, v);
    ScaleDot(r.w, b.r3, v);
    AddDot(s0, s1, v);
    AddDot(s2, s3, v);
    AddDot(Add4(s0, s1), Add4(s2, s3), v);
  }

  lemma ScaleDot(c: real, a: Vec4, v: Vec4)
    ensures Dot4(Scale4(c, a), v) == c * Dot4(a, v)
  {
  }

  lemma AddDot(a: Vec4, b: Vec4, v: Vec4)
    ensures Dot4(Add4(a, b), v) == Dot4(a, v) + Dot4(b, v)
  {
  }

  /** Applying A·B is applying B, then A. */
  lemma ApplyMul(a: Mat4, b: Mat4, v: Vec4)
    ensures Apply(Mul(a, b), v) == Apply(a, Apply(b, v))
  {
    RowTimesDot(a.r0, b, v);
    RowTimesDot(a.r1, b, v);
    RowTimesDot(a.r2, b, v);
    RowTimesDot(a.r3, b, v);
  }

  // ---------------------------------------------------------------- products of transform lists

  /** ms[k-1] · … · ms[1] · ms[0]: the last matrix is the leftmost factor. */
  function ProductLastFirst(ms: seq<Mat4>): Mat4
  {
    if ms == [] then Identity else Mul(ms[|ms| - 1], ProductLastFirst(ms[..|ms| - 1]))
  }

  /** ms[0] · ms[1] · … · ms[k-1]: the first matrix is the leftmost factor. */
  function ProductFirstLast(ms: seq<Mat4>): Mat4
  {
    if ms == [] then Identity else Mul(ms[0], ProductFirstLast(ms[1..]))
  }

  function Reverse<T>(s: seq<T>): (r: seq<T>)
    ensures |r| == |s|
    ensures forall i :: 0 <= i < |s| ==> r[i] == s[|s| - 1 - i]
  {
    if s == [] then [] else Reverse(s[1..]) + [s[0]]
  }

  /** Transforms v by ms[0] first, then ms[1], and so on. */
  function ApplyInOrder(ms: seq<Mat4>, v: Vec4): Vec4
  {
    if ms == [] then v else Apply(ms[|ms| - 1], ApplyInOrder(ms[..|ms| - 1], v))
  }

  /** The last-to-first product applies the first matrix of the list first. */
  lemma {:induction false} ProductLastFirstAppliesInOrder(ms: seq<Mat4>, v: Vec4)
    ensures Apply(ProductLastFirst(ms), v) == ApplyInOrder(ms, v)
  {
    if ms == [] {
      IdentityIsUnit(Identity, v);
    } else {
      var init := ms[..|ms| - 1];
      ProductLastFirstAppliesInOrder(init, v);
      ApplyMul(ms[|ms| - 1], ProductLastFirst(init), v);
    }
  }

  /** The first-to-last product is the last-to-first product of the reversed list. */
  lemma {:induction false} ProductFirstLastIsReversed(ms: seq<Mat4>)
    ensures ProductFirstLast(ms) == ProductLastFirst(Reverse(ms))
  {
    if ms != [] {
      var r := Reverse(ms);
      assert r == Reverse(ms[1..]) + [ms[0]];
      assert r[..|r| - 1] == Reverse(ms[1..]);
      ProductFirstLastIsReversed(ms[1..]);
    }
  }

  /** Hence the first-to-last product applies the LAST matrix of the list first. */
  lemma ProductFirstLastAppliesReversed(ms: seq<Mat4>, v: Vec4)
    ensures Apply(ProductFirstLast(ms), v) == ApplyInOrder(Reverse(ms), v)
  {
    ProductFirstLastIsReversed(ms);
    ProductLastFirstAppliesInOrder(Reverse(ms), v);
  }

  /** Unfolding the first-to-last product from its front, as the loops that build it do. */
  lemma ProductFirstLastCons(ms: seq<Mat4>, i: nat)
    requires i < |ms|
    ensures ProductFirstLast(ms[i..]) == Mul(ms[i], ProductFirstLast(ms[i + 1..]))
  {
    assert ms[i..][1..] == ms[i + 1..];
  }

  /** The same unfolding, stated for the vector the product is applied to. */
  lemma ApplyProductFirstLastCons(ms: seq<Mat4>, i: nat, v: Vec4)
    requires i < |ms|
    ensures Apply(ProductFirstLast(ms[i..]), v) == Apply(ms[i], Apply(ProductFirstLast(ms[i + 1..]), v))
  {
    ProductFirstLastCons(ms, i);
    ApplyMul(ms[i], ProductFirstLast(ms[i + 1..]), v);
  }

  /** The product of a single matrix applies just that matrix. */
  lemma ApplySingle(ms: seq<Mat4>, v: Vec4)
    requires |ms| == 1
    ensures Apply(ProductFirstLast(ms), v) == Apply(ms[0], v)
  {
    assert ms[1..] == [];
    ApplyMul(ms[0], Identity, v);
    ApplyIdentity(v);
  }

  /** Unfolding the last-to-first product at its end, as the loops that build it do. */
  lemma ProductLastFirstSnoc(ms: seq<Mat4>, i: nat)
    requires i < |ms|
    ensures ProductLastFirst(ms[..i + 1]) == Mul(ms[i], ProductLastFirst(ms[..i]))
  {
    assert ms[..i + 1][..i] == ms[..i];
  }

  // ---------------------------------------------------------------- the loops that build the products

  /** Starting from the identity, multiplies each matrix, first to last, on the left. */
  method MultiplyLastFirst(ms: seq<Mat4>) returns (prod: Mat4)
    ensures prod == ProductLastFirst(ms)
  {
    prod := Identity;
    var i := 0;
    while i < |ms|
      invariant 0 <= i <= |ms|
      invariant prod == ProductLastFirst(ms[..i])
    {
      ProductLastFirstSnoc(ms, i);
      prod := Mul(ms[i], prod);
      i := i + 1;
    }
    assert ms[..|ms|] == ms;
  }

  /** Starting from the identity, multiplies each matrix, last to first, on the left. */
  method MultiplyFirstLast(ms: seq<Mat4>) returns (prod: Mat4)
    ensures prod == ProductFirstLast(ms)
  {
    prod := Identity;
    var i := |ms|;
    while i > 0
      invariant 0 <= i <= |ms|
      invariant prod == ProductFirstLast(ms[i..])
    {
      i := i - 1;
      ProductFirstLastCons(ms, i);
      prod := Mul(ms[i], prod);
    }
    assert ms[0..] == ms;
  }

  /** Multiplies v by each matrix, last to first: the result is the first-to-last product applied to v. */
  method ApplyEachLastFirst(ms: seq<Mat4>, v: Vec4) returns (w: Vec4)
    ensures w == Apply(ProductFirstLast(ms), v)
  {
    w := v;
    ApplyIdentity(v);
    assert ms[|ms|..] == [];
    var i := |ms|;
    while i > 0
      invariant 0 <= i <= |ms|
      invariant w == Apply(ProductFirstLast(ms[i..]), v)
    {
      i := i - 1;
      ApplyProductFirstLastCons(ms, i, v);
      w := Apply(ms[i], w);
    }
    assert ms[0..] == ms;
  }
}
