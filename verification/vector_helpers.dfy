/**
 * The small vector helpers that several programs repeat (hw5 object.cpp,
 * hw6 I_Bar vertex.cpp, hw6 Part2 utils.cpp).
 *
 * `add`, `dot(c, v)`, `dot(v1, v2)`, `cross` and `norm` are the LinAlg
 * functions Add3, Scale3, Dot3, Cross3 and Norm3 on the vertex's x, y and z.
 * This module states what the programs rely on about them, and models the
 * two in-place normalisations and the angle conversions.
 */
module VectorHelpers {
  import opened LinAlg

  // ---------------------------------------------------------------- add, dot, cross

  /** Adding is commutative and has the zero vector as unit; scaling by 1 changes nothing. */
  lemma AddAndScaleLaws(a: Vec3, b: Vec3)
    ensures Add3(a, b) == Add3(b, a)
    ensures Add3(a, Zero3) == a
    ensures Scale3(1.0, a) == a
    ensures Scale3(0.0, a) == Zero3
  {
  }

  /** Scaling distributes over the sum, so an area-weighted sum is linear in the weights. */
  lemma ScaleDistributes(c: real, a: Vec3, b: Vec3)
    ensures Scale3(c, Add3(a, b)) == Add3(Scale3(c, a), Scale3(c, b))
  {
  }

  /** The dot product is symmetric and a vector's dot product with itself is never negative. */
  lemma DotLaws(a: Vec3, b: Vec3)
    ensures Dot3(a, b) == Dot3(b, a)
    ensures Dot3(a, a) >= 0.0
  {
    SquareNonNegative(a.x);
    SquareNonNegative(a.y);
    SquareNonNegative(a.z);
  }

  lemma SquareNonNegative(x: real)
    ensures x * x >= 0.0
  {
    if x < 0.0 {
      assert x * x == (-x) * (-x);
    }
  }

  /** The cross product is orthogonal to both of its arguments. */
  lemma CrossOrthogonal(a: Vec3, b: Vec3)
    ensures Dot3(Cross3(a, b), a) == 0.0
    ensures Dot3(Cross3(a, b), b) == 0.0
  {
    var c := Cross3(a, b);
    assert c.x * a.x == a.y * b.z * a.x - a.z * b.y * a.x;
    assert c.y * a.y == a.z * b.x * a.y - a.x * b.z * a.y;
    assert c.z * a.z == a.x * b.y * a.z - a.y * b.x * a.z;
    assert c.x * b.x == a.y * b.z * b.x - a.z * b.y * b.x;
    assert c.y * b.y == a.z * b.x * b.y - a.x * b.z * b.y;
    assert c.z * b.z == a.x * b.y * b.z - a.y * b.x * b.z;
  }

  /** Swapping the arguments of the cross product negates it. */
  lemma CrossAntisymmetric(a: Vec3, b: Vec3)
    ensures Cross3(b, a) == Scale3(-1.0, Cross3(a, b))
  {
  }

  // ---------------------------------------------------------------- normalize

  /**
   * normalize(Vertex &v) (hw5 and I_Bar): each component divided by the
   * norm. Multiplying back by the norm gives v again.
   */
  function DivideByNorm(m: Math, v: Vec3): (r: Vec3)
    requires Norm3(m, v) != 0.0
    ensures Scale3(Norm3(m, v), r) == v
  {
    var n := Norm3(m, v);
    QuotientTimesDivisor(v.x, n);
    QuotientTimesDivisor(v.y, n);
    QuotientTimesDivisor(v.z, n);
    Vec3(v.x / n, v.y / n, v.z / n)
  }

  /** On a vector of positive length it agrees with Eigen's normalized(). */
  lemma DivideByNormIsNormalized(m: Math, v: Vec3)
    requires SqrtLaw(m) && Dot3(v, v) > 0.0
    ensures Norm3(m, v) != 0.0 && DivideByNorm(m, v) == Normalized(m, v)
  {
    var n := Norm3(m, v);
    assert n * n == Dot3(v, v);
  }

  /** normalize(float u[3]) (hw6 Part2 utils.cpp): divides the array's three entries by their norm in place. */
  method NormalizeArray(m: Math, u: array<real>)
    requires u.Length == 3 && Norm3(m, Vec3(u[0], u[1], u[2])) != 0.0
    modifies u
    ensures Vec3(u[0], u[1], u[2]) == DivideByNorm(m, old(Vec3(u[0], u[1], u[2])))
  {
    ghost var v := Vec3(u[0], u[1], u[2]);
    var sum := u[0] * u[0] + u[1] * u[1] + u[2] * u[2];
    assert sum == Dot3(v, v);
    var norm := m.sqrt(sum);
    u[0] := u[0] / norm;
    u[1] := u[1] / norm;
    u[2] := u[2] / norm;
  }

  // ---------------------------------------------------------------- angles

  /** deg2rad: degs · π / 180. */
  function Deg2Rad(degs: real): real
  {
    degs * PI / 180.0
  }

  /** rad2deg: rads · 180 / π. */
  function Rad2Deg(rads: real): real
  {
    rads * 180.0 / PI
  }

  /** The two conversions are inverse to each other, and 180 degrees is π radians. */
  lemma AngleConversions(x: real)
    ensures Rad2Deg(Deg2Rad(x)) == x
    ensures Deg2Rad(Rad2Deg(x)) == x
    ensures Deg2Rad(180.0) == PI
  {
  }
}
