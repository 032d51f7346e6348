/**
 * The perspective projection shared by the wireframe and shaded renderers
 * (Perspective::compute_perspective_matrix in hw1 and hw2 scene.cpp): the
 * frustum n, f, l, r, t, b mapped onto the cube [-1, 1]^3.
 */
module Projection {
  import opened LinAlg

  datatype Perspective = Perspective(n: real, f: real, l: real, r: real, t: real, b: real)

  /** The frustum's sides are pairwise distinct, so no entry divides by zero. */
  predicate Proper(p: Perspective)
  {
    p.r != p.l && p.t != p.b && p.f != p.n
  }

  /**
   * compute_perspective_matrix. Its last row is (0, 0, -1, 0), so the
   * homogeneous w of every transformed point is minus its camera-space z.
   */
  function PerspectiveMatrix(p: Perspective): (m: Mat4)
    requires Proper(p)
    ensures m.r3 == Vec4(0.0, 0.0, -1.0, 0.0)
    ensures forall v :: Apply(m, v).w == -v.z
  {
    var r11 := 2.0 * p.n / (p.r - p.l);
    var r13 := (p.r + p.l) / (p.r - p.l);
    var r22 := 2.0 * p.n / (p.t - p.b);
    var r23 := (p.t + p.b) / (p.t - p.b);
    var r33 := DepthScale(p);
    var r34 := DepthOffset(p);
    Mat4(Vec4(r11, 0.0, r13, 0.0),
         Vec4(0.0, r22, r23, 0.0),
         Vec4(0.0, 0.0, r33, r34),
         Vec4(0.0, 0.0, -1.0, 0.0))
  }

  /**
   * After the division by w, a camera-space point on the near plane z = -n
   * lands on NDC depth -1 and one on the far plane z = -f on +1.
   */
  lemma NearAndFarPlanes(p: Perspective, x: real, y: real)
    requires Proper(p) && p.n != 0.0 && p.f != 0.0
    ensures var c := Apply(PerspectiveMatrix(p), Vec4(x, y, -p.n, 1.0)); c.w == p.n && c.z / c.w == -1.0
    ensures var c := Apply(PerspectiveMatrix(p), Vec4(x, y, -p.f, 1.0)); c.w == p.f && c.z / c.w == 1.0
  {
    DepthAt(p, x, y, p.n);
    DepthAt(p, x, y, p.f);
    DepthRow(p);
    var near := Apply(PerspectiveMatrix(p), Vec4(x, y, -p.n, 1.0));
    var far := Apply(PerspectiveMatrix(p), Vec4(x, y, -p.f, 1.0));
    QuotientOf(near.z, near.w, -1.0);
    QuotientOf(far.z, far.w, 1.0);
  }

  /** The transformed depth and w of a point at camera-space depth -d. */
  lemma DepthAt(p: Perspective, x: real, y: real, d: real)
    requires Proper(p)
    ensures var c := Apply(PerspectiveMatrix(p), Vec4(x, y, -d, 1.0)); c.z == DepthMap(p, d) && c.w == d
  {
  }

  /** The third row's depth entries, r33 and r34. */
  function DepthScale(p: Perspective): real
    requires Proper(p)
  {
    (-1.0) * (p.f + p.n) / (p.f - p.n)
  }

  function DepthOffset(p: Perspective): real
    requires Proper(p)
  {
    (-2.0) * p.f * p.n / (p.f - p.n)
  }

  /** The third row applied to a point at depth -d. */
  function DepthMap(p: Perspective, d: real): real
    requires Proper(p)
  {
    DepthScale(p) * (-d) + DepthOffset(p)
  }

  /** The third row sends depth -n to -n and depth -f to f. */
  lemma DepthRow(p: Perspective)
    requires Proper(p)
    ensures DepthMap(p, p.n) == -p.n && DepthMap(p, p.f) == p.f
  {
    var n, f := p.n, p.f;
    var q := 1.0 / (f - n);
    assert (f - n) * q == 1.0;
    var r33, r34 := DepthScale(p), DepthOffset(p);
    assert r33 == (-1.0) * (f + n) * q;
    assert r34 == (-2.0) * f * n * q;
    assert r33 * (-n) + r34 == (n * (f + n) - 2.0 * f * n) * q;
    assert n * (f + n) - 2.0 * f * n == -n * (f - n);
    assert r33 * (-f) + r34 == (f * (f + n) - 2.0 * f * n) * q;
    assert f * (f + n) - 2.0 * f * n == f * (f - n);
  }

  lemma QuotientOf(a: real, b: real, q: real)
    requires b != 0.0 && a == q * b
    ensures a / b == q
  {
  }
}
