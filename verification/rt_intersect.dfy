/**
 * The ray tracer's geometric queries (hw7 assignment.cpp): whether a point
 * lies inside a scene node, the bounding-sphere starting guess, the Newton
 * iteration along a ray, and the closest hit of a ray with a node.
 *
 * Each query is specified by a function over the node tree and implemented
 * by a method that follows the source's loops; the method's postcondition
 * ties the two together, and the lemmas state what the specification means.
 */
module RtIntersect {
  import opened LinAlg
  import opened Floats
  import opened Wrappers
  import opened RtTransform
  import opened RtObject

  /** The Newton loop's update cap. */
  const MAX_ITERS: nat := 10000
  /** The Newton loop's tolerance on g and g'. */
  const EPSILON: real := 0.000001

  // ---------------------------------------------------------------- the superquadric function

  /**
   * InsideOutsideFunc: negative inside the body-space superquadric with
   * exponents e and n, zero on its surface, positive outside.
   */
  function InsideOutside(m: Math, p: Vec3, e: real, n: real): real
    requires e != 0.0 && n != 0.0
  {
    var x, y, z := p.x, p.y, p.z;
    -1.0 + m.pow(z * z, 1.0 / n) + m.pow(m.pow(x * x, 1.0 / e) + m.pow(y * y, 1.0 / e), e / n)
  }

  /** pow(0, r) = 0 for every positive exponent r. */
  ghost predicate PowZeroLaw(m: Math)
  {
    forall r: real {:trigger m.pow(0.0, r)} :: r > 0.0 ==> m.pow(0.0, r) == 0.0
  }

  /** The body-space origin is strictly inside every superquadric with positive exponents. */
  lemma OriginIsInside(m: Math, e: real, n: real)
    requires PowZeroLaw(m) && e > 0.0 && n > 0.0
    ensures InsideOutside(m, Zero3, e, n) == -1.0
  {
    assert 1.0 / e > 0.0 && 1.0 / n > 0.0 && e / n > 0.0;
    assert m.pow(0.0 * 0.0, 1.0 / e) == 0.0;
    assert m.pow(0.0, 1.0 / e) + m.pow(0.0, 1.0 / e) == 0.0;
  }

  /** InsideOutsideGrad: the gradient of InsideOutside, each component divided by n at the end. */
  function Grad(m: Math, p: Vec3, e: real, n: real): Vec3
    requires e != 0.0 && n != 0.0
  {
    var x, y, z := p.x, p.y, p.z;
    var xy := m.pow(m.pow(x * x, 1.0 / e) + m.pow(y * y, 1.0 / e), e / n - 1.0);
    var dx := (2.0 * x) * m.pow(x * x, 1.0 / e - 1.0) * xy;
    var dy := (2.0 * y) * m.pow(y * y, 1.0 / e - 1.0) * xy;
    var dz := (2.0 * z) * m.pow(z * z, 1.0 / n - 1.0);
    Vec3(dx / n, dy / n, dz / n)
  }

  /**
   * Off the coordinate planes GetNormal's guards are not taken, so its
   * gradient is InsideOutsideGrad's and the normal is that gradient
   * normalised. On a plane the guard is what makes the component zero.
   */
  lemma GetNormalIsNormalisedGrad(m: Math, sq: Node, p: Vec3)
    requires SqrtLaw(m) && sq.Superquadric? && sq.exp0 != 0.0 && sq.exp1 != 0.0
    requires p.x != 0.0 && p.y != 0.0 && p.z != 0.0
    ensures NormalGradient(m, p, sq.exp0, sq.exp1) == Grad(m, p, sq.exp0, sq.exp1)
    ensures GetNormal(m, sq, p) == Normalized(m, Grad(m, p, sq.exp0, sq.exp1))
  {
  }

  // ---------------------------------------------------------------- node transforms

  /** The matrices of a node's transforms, in list order. */
  function Matrices(m: Math, ts: seq<Transform>): (ms: seq<Mat4>)
    ensures |ms| == |ts|
  {
    seq(|ts|, i requires 0 <= i < |ts| => MatrixOf(m, ts[i]))
  }

  /** The inverses of a node's transform matrices, in list order. */
  function Inverses(m: Math, ts: seq<Transform>): (invs: seq<Mat4>)
    ensures |invs| == |ts|
  {
    var ms := Matrices(m, ts);
    seq(|ms|, i requires 0 <= i < |ms| => m.inverse(ms[i]))
  }

  /**
   * Parent space to body space, T1^-1 · … · Tk^-1 (the inverses multiplied
   * in list order).
   */
  function BodyFromParent(m: Math, ts: seq<Transform>): Mat4
  {
    ProductFirstLast(Inverses(m, ts))
  }

  /** Body space to parent space, Tk · … · T1 (the matrices multiplied in reverse list order). */
  function ParentFromBody(m: Math, ts: seq<Transform>): Mat4
  {
    ProductLastFirst(Matrices(m, ts))
  }

  /** Parent-to-body undoes the last transform first. */
  lemma BodyFromParentUndoesLastFirst(m: Math, ts: seq<Transform>, v: Vec4)
    ensures Apply(BodyFromParent(m, ts), v) == ApplyInOrder(Reverse(Inverses(m, ts)), v)
  {
    ProductFirstLastAppliesReversed(Inverses(m, ts), v);
  }

  /** Body-to-parent applies the first transform first. */
  lemma ParentFromBodyAppliesFirstFirst(m: Math, ts: seq<Transform>, v: Vec4)
    ensures Apply(ParentFromBody(m, ts), v) == ApplyInOrder(Matrices(m, ts), v)
  {
    ProductLastFirstAppliesInOrder(Matrices(m, ts), v);
  }

  /** The inverse the model is given really undoes each of the node's transforms. */
  ghost predicate InvertsAll(m: Math, ts: seq<Transform>)
  {
    var ms := Matrices(m, ts);
    forall i, v :: 0 <= i < |ms| ==> Apply(m.inverse(ms[i]), Apply(ms[i], v)) == v
  }

  /** Applying ms[0] first and then the reversed list of left inverses gives v back. */
  lemma {:induction false} InOrderThenReversedInverses(ms: seq<Mat4>, invs: seq<Mat4>, v: Vec4)
    requires |ms| == |invs|
    requires forall i, w :: 0 <= i < |ms| ==> Apply(invs[i], Apply(ms[i], w)) == w
    ensures ApplyInOrder(Reverse(invs), ApplyInOrder(ms, v)) == v
  {
    if ms != [] {
      var k := |ms| - 1;
      var w := ApplyInOrder(ms[..k], v);
      assert Reverse(invs) == [invs[k]] + Reverse(invs[..k]) by {
        assert forall i :: 0 <= i < |invs| ==> Reverse(invs)[i] == ([invs[k]] + Reverse(invs[..k]))[i];
      }
      ApplyInOrderCons(invs[k], Reverse(invs[..k]), ApplyInOrder(ms, v));
      assert Apply(invs[k], ApplyInOrder(ms, v)) == w;
      InOrderThenReversedInverses(ms[..k], invs[..k], v);
    }
  }

  /** A list that starts with a applies a first. */
  lemma {:induction false} ApplyInOrderCons(a: Mat4, rest: seq<Mat4>, v: Vec4)
    ensures ApplyInOrder([a] + rest, v) == ApplyInOrder(rest, Apply(a, v))
  {
    if rest != [] {
      var k := |rest| - 1;
      assert ([a] + rest)[..k + 1] == [a] + rest[..k];
      ApplyInOrderCons(a, rest[..k], v);
    }
  }

  /**
   * Body-to-parent undoes parent-to-body: a point taken into a node's body
   * space and back is where it started, when every transform is invertible.
   */
  lemma BodyFromParentUndoesParentFromBody(m: Math, ts: seq<Transform>, v: Vec4)
    requires InvertsAll(m, ts)
    ensures Apply(BodyFromParent(m, ts), Apply(ParentFromBody(m, ts), v)) == v
  {
    ParentFromBodyAppliesFirstFirst(m, ts, v);
    BodyFromParentUndoesLastFirst(m, ts, Apply(ParentFromBody(m, ts), v));
    InOrderThenReversedInverses(Matrices(m, ts), Inverses(m, ts), v);
  }

  /**
   * The transform loops of IOTest: the point is multiplied by the inverse of
   * each transform, from the last to the first.
   */
  method ToBodySpace(m: Math, ts: seq<Transform>, p: Vec3) returns (pt: Vec4)
    ensures pt == Apply(BodyFromParent(m, ts), Point(p))
  {
    pt := ApplyEachLastFirst(Inverses(m, ts), Point(p));
  }

  /**
   * The inverse-transform loops of ClosestIntersection: starting from the
   * identity, each inverse, from the last transform to the first, is
   * multiplied on the left.
   */
  method BodyFromParentLoop(m: Math, ts: seq<Transform>) returns (inverseTransform: Mat4)
    ensures inverseTransform == BodyFromParent(m, ts)
  {
    inverseTransform := MultiplyFirstLast(Inverses(m, ts));
  }

  /**
   * The final-transform loops of ClosestIntersection: starting from the
   * identity, each matrix, from the first transform to the last, is
   * multiplied on the left.
   */
  method ParentFromBodyLoop(m: Math, ts: seq<Transform>) returns (finalTransform: Mat4)
    ensures finalTransform == ParentFromBody(m, ts)
  {
    finalTransform := MultiplyLastFirst(Matrices(m, ts));
  }

  // ---------------------------------------------------------------- point containment

  /** Every superquadric in the tree has nonzero exponents (the functions above divide by them). */
  predicate ExpsNonzero(node: Node)
    decreases node
  {
    match node
    case Superquadric(_, e0, e1, _, _, _) => e0 != 0.0 && e1 != 0.0
    case Assembly(_, cs) => forall i :: 0 <= i < |cs| ==> ExpsNonzero(cs[i])
  }

  /** p, given in the node's parent space, expressed in the node's own space. */
  function BodyPoint(m: Math, ts: seq<Transform>, p: Vec3): Vec3
  {
    Head(Apply(BodyFromParent(m, ts), Point(p)))
  }

  /**
   * A superquadric contains p iff its inside-outside value at the body-space
   * point is strictly negative (a surface point is outside); an assembly
   * contains p iff one of its children contains the assembly-space point.
   */
  predicate Inside(m: Math, node: Node, p: Vec3)
    requires ExpsNonzero(node)
    decreases node
  {
    match node
    case Superquadric(ts, e0, e1, _, _, _) => InsideOutside(m, BodyPoint(m, ts, p), e0, e1) < 0.0
    case Assembly(ts, cs) => exists i :: 0 <= i < |cs| && Inside(m, cs[i], BodyPoint(m, ts, p))
  }

  /** A node without transforms has the same space as its parent. */
  lemma NoTransformsKeepPoints(m: Math, p: Vec3)
    ensures BodyPoint(m, [], p) == p
  {
    assert Inverses(m, []) == [];
    ApplyIdentity(Point(p));
  }

  /** An assembly without children contains nothing. */
  lemma EmptyAssemblyIsEmpty(m: Math, ts: seq<Transform>, p: Vec3)
    ensures !Inside(m, Assembly(ts, []), p)
  {
  }

  /** With no transforms, a superquadric with positive exponents contains the origin. */
  lemma UntransformedContainsOrigin(m: Math, e0: real, e1: real)
    requires PowZeroLaw(m) && e0 > 0.0 && e1 > 0.0
    ensures Inside(m, NewSuperquadric(e0, e1), Zero3)
  {
    NoTransformsKeepPoints(m, Zero3);
    OriginIsInside(m, e0, e1);
  }

  /** Superquadric::IOTest and Assembly::IOTest. */
  method IOTest(m: Math, node: Node, point: Vec3) returns (inside: bool)
    requires ExpsNonzero(node)
    ensures inside == Inside(m, node, point)
    decreases node
  {
    var pt := ToBodySpace(m, node.transforms, point);
    var q := Head(pt);
    match node
    case Superquadric(_, e0, e1, _, _, _) =>
      var result := InsideOutside(m, q, e0, e1);
      inside := result < 0.0;
    case Assembly(_, children) =>
      var j := 0;
      while j < |children|
        invariant 0 <= j <= |children|
        invariant forall k :: 0 <= k < j ==> !Inside(m, children[k], q)
      {
        var childInside := IOTest(m, children[j], q);
        if childInside {
          return true;
        }
        j := j + 1;
      }
      inside := false;
  }

  // ---------------------------------------------------------------- starting guess

  /** sign(): 1 for a positive argument, -1 otherwise (zero included). */
  function Sign(x: real): (s: real)
    ensures s == 1.0 || s == -1.0
    ensures s == 1.0 <==> x > 0.0
  {
    if x > 0.0 then 1.0 else -1.0
  }

  function Abs(x: real): real
  {
    if x < 0.0 then -x else x
  }

  /** a·a >= 0 for a 3-vector. */
  lemma DotSelfNonnegative(v: Vec3)
    ensures Dot3(v, v) >= 0.0
  {
    SquareNonnegative(v.x);
    SquareNonnegative(v.y);
    SquareNonnegative(v.z);
  }

  lemma SquareNonnegative(x: real)
    ensures x * x >= 0.0
  {
  }

  /** The coefficients of |origin + t·direction|^2 = 3, as GetInitialGuess computes them. */
  function QuadA(ray: Ray): real { Dot3(ray.direction, ray.direction) }
  function QuadB(ray: Ray): real { 2.0 * Dot3(ray.direction, ray.origin) }
  function QuadC(ray: Ray): real { Dot3(ray.origin, ray.origin) - 3.0 }
  function Delta(ray: Ray): real { QuadB(ray) * QuadB(ray) - 4.0 * QuadA(ray) * QuadC(ray) }

  /**
   * GetInitialGuess: the case split over the two "roots" of the ray's
   * bounding-sphere quadratic, computed (as the source does) with the
   * discriminant itself where its square root would belong. A negative
   * discriminant, or both candidates negative, gives +inf.
   */
  function InitialGuess(ray: Ray): (t: Float)
    ensures Delta(ray) < 0.0 ==> t == PosInf
    ensures t != NegInf || QuadA(ray) == 0.0
  {
    var a, b, c := QuadA(ray), QuadB(ray), QuadC(ray);
    var delta := Delta(ray);
    if delta < 0.0 then PosInf
    else
      DotSelfNonnegative(ray.direction);
      var t1 := DivPosZero(Sign(b) * (-Abs(b) - delta), 2.0 * a);
      var t2 := DivNegZero(Sign(b) * (2.0 * c), -Abs(b) - delta);
      PickGuess(t1, t2, b)
  }

  /**
   * The choice GetInitialGuess makes between its two candidates, once they
   * are ordered as t_minus and t_plus by the sign of b: the nearer when both
   * are positive, +inf when both are negative, else the positive one (or
   * t_plus when neither compares as positive).
   */
  function PickGuess(t1: Float, t2: Float, b: real): (t: Float)
    ensures t == t1 || t == t2 || t == PosInf
  {
    var lo, hi := if b < 0.0 then t2 else t1, if b < 0.0 then t1 else t2;
    if Positive(lo) && Positive(hi) then lo
    else if Negative(lo) && Negative(hi) then PosInf
    else if Positive(lo) then lo
    else hi
  }

  /**
   * For a ray with a nonzero direction the guess is never -inf nor a
   * negative number; it is NaN exactly when the ray is tangent-free and
   * starts on the bounding sphere (b = 0 and c = 0); it is +inf exactly when
   * the discriminant is negative or both candidates lie behind the origin
   * (b > 0 and c > 0); and from inside the sphere (c < 0) it is a positive
   * distance.
   */
  lemma InitialGuessCases(ray: Ray)
    requires QuadA(ray) > 0.0
    ensures InitialGuess(ray) != NegInf
    ensures InitialGuess(ray).Num? ==> InitialGuess(ray).v >= 0.0
    ensures InitialGuess(ray) == NaN <==> QuadB(ray) == 0.0 && QuadC(ray) == 0.0
    ensures InitialGuess(ray) == PosInf <==> Delta(ray) < 0.0 || (QuadB(ray) > 0.0 && QuadC(ray) > 0.0)
    ensures QuadC(ray) < 0.0 ==> InitialGuess(ray).Num? && InitialGuess(ray).v > 0.0
  {
    var a, b, c := QuadA(ray), QuadB(ray), QuadC(ray);
    var delta := Delta(ray);
    if delta >= 0.0 {
      if b > 0.0 {
        assert Sign(b) * (-Abs(b) - delta) == -b - delta;
        assert Sign(b) * (2.0 * c) == 2.0 * c;
      } else if b < 0.0 {
        assert Sign(b) * (-Abs(b) - delta) == -b + delta;
        assert Sign(b) * (2.0 * c) == -2.0 * c;
      } else {
        assert c <= 0.0 by {
          assert delta == -4.0 * a * c;
          SignOfProduct(a, c);
        }
        assert Sign(b) * (-Abs(b) - delta) == delta;
        assert Sign(b) * (2.0 * c) == -2.0 * c;
        assert delta == 0.0 <==> c == 0.0 by {
          assert delta == -4.0 * a * c;
          SignOfProduct(a, c);
        }
      }
    } else {
      assert !(b == 0.0 && c == 0.0);
    }
  }

  /** With a > 0, a·c has the sign of c. */
  lemma SignOfProduct(a: real, c: real)
    requires a > 0.0
    ensures (-4.0 * a * c > 0.0 <==> c < 0.0) && (-4.0 * a * c == 0.0 <==> c == 0.0)
  {
  }

  /** |origin + t·direction|² is the bounding-sphere quadratic at t, plus 3. */
  lemma SquaredDistanceAt(ray: Ray, t: real)
    ensures Dot3(At(ray, t), At(ray, t)) == QuadA(ray) * t * t + QuadB(ray) * t + QuadC(ray) + 3.0
  {
    var o, d := ray.origin, ray.direction;
    var p := At(ray, t);
    var tt := t * t;
    calc {
      Dot3(p, p);
    == { assert p == Vec3(o.x + t * d.x, o.y + t * d.y, o.z + t * d.z); }
      (o.x + t * d.x) * (o.x + t * d.x) + (o.y + t * d.y) * (o.y + t * d.y) + (o.z + t * d.z) * (o.z + t * d.z);
    == { var _ := SquareOfSum(o.x, d.x, t); var _ := SquareOfSum(o.y, d.y, t); var _ := SquareOfSum(o.z, d.z, t); }
      Dot3(o, o) + (2.0 * t * (d.x * o.x) + 2.0 * t * (d.y * o.y) + 2.0 * t * (d.z * o.z))
        + ((d.x * d.x) * tt + (d.y * d.y) * tt + (d.z * d.z) * tt);
    == { Distributes(tt, d.x * d.x, d.y * d.y, d.z * d.z); Distributes(2.0 * t, d.x * o.x, d.y * o.y, d.z * o.z); }
      Dot3(o, o) + (2.0 * t) * Dot3(d, o) + Dot3(d, d) * tt;
    ==
      QuadA(ray) * t * t + QuadB(ray) * t + QuadC(ray) + 3.0;
    }
  }

  /** k·a + k·b + k·c = k·(a + b + c), with the factor on both sides. */
  lemma Distributes(k: real, a: real, b: real, c: real)
    ensures k * a + k * b + k * c == k * (a + b + c)
    ensures a * k + b * k + c * k == (a + b + c) * k
  {
  }

  /** (o + t·d)² expanded. */
  lemma SquareOfSum(o: real, d: real, t: real) returns (sq: real)
    ensures sq == (o + t * d) * (o + t * d)
    ensures sq == o * o + 2.0 * t * (d * o) + (d * d) * (t * t)
  {
    sq := (o + t * d) * (o + t * d);
  }

  /**
   * A unit ray from the centre of the bounding sphere, such as the one along
   * the x axis, has a = 1, b = 0 and c = -3. The discriminant is 12, the
   * candidates are 12 / 2 = 6 and -6 / -12 = -0.5, and the guess as written
   * is 6: a point at squared distance 36 from the centre, outside the sphere
   * of squared radius 3 and beyond it.
   */
  lemma InitialGuessOffSphere(ray: Ray)
    requires QuadA(ray) == 1.0 && QuadB(ray) == 0.0 && QuadC(ray) == -3.0
    ensures InitialGuess(ray) == Num(6.0)
    ensures Dot3(At(ray, 6.0), At(ray, 6.0)) == 36.0
  {
    assert Delta(ray) == 12.0;
    assert DivPosZero(Sign(0.0) * (-Abs(0.0) - 12.0), 2.0 * 1.0) == Num(6.0);
    assert DivNegZero(Sign(0.0) * (2.0 * -3.0), -Abs(0.0) - 12.0) == Num(-0.5);
    SixOffSphere(ray);
  }

  /** At t = 6 such a ray is at squared distance 36 from the centre. */
  lemma SixOffSphere(ray: Ray)
    requires QuadA(ray) == 1.0 && QuadB(ray) == 0.0 && QuadC(ray) == -3.0
    ensures Dot3(At(ray, 6.0), At(ray, 6.0)) == 36.0
  {
    SquaredDistanceAt(ray, 6.0);
  }

  /**
   * GetInitialGuess with the square root of the discriminant where the
   * source uses the discriminant itself: the same case split over the two
   * roots, the second computed in citardauq form.
   */
  function InitialGuessFixed(m: Math, ray: Ray): (t: Float)
    requires SqrtLaw(m)
    ensures Delta(ray) < 0.0 ==> t == PosInf
  {
    var a, b, c := QuadA(ray), QuadB(ray), QuadC(ray);
    var delta := Delta(ray);
    if delta < 0.0 then PosInf
    else
      DotSelfNonnegative(ray.direction);
      var s := m.sqrt(delta);
      var t1 := DivPosZero(Sign(b) * (-Abs(b) - s), 2.0 * a);
      var t2 := DivNegZero(Sign(b) * (2.0 * c), -Abs(b) - s);
      PickGuess(t1, t2, b)
  }

  /**
   * With the square root in place every finite guess is a root of the
   * bounding-sphere quadratic: the ray's point there lies on the sphere of
   * squared radius 3, as the guess is meant to.
   */
  lemma InitialGuessFixedOnSphere(m: Math, ray: Ray)
    requires SqrtLaw(m) && QuadA(ray) > 0.0
    ensures InitialGuessFixed(m, ray).Num? ==>
              Dot3(At(ray, InitialGuessFixed(m, ray).v), At(ray, InitialGuessFixed(m, ray).v)) == 3.0
  {
    var t := InitialGuessFixed(m, ray);
    if t.Num? {
      FixedGuessIsRoot(m, ray);
      SquaredDistanceAt(ray, t.v);
    }
  }

  /** A finite corrected guess is a root of the bounding-sphere quadratic. */
  lemma FixedGuessIsRoot(m: Math, ray: Ray)
    requires SqrtLaw(m) && QuadA(ray) > 0.0 && InitialGuessFixed(m, ray).Num?
    ensures var t := InitialGuessFixed(m, ray).v; QuadA(ray) * t * t + QuadB(ray) * t + QuadC(ray) == 0.0
  {
    var a, b, c := QuadA(ray), QuadB(ray), QuadC(ray);
    var s := m.sqrt(Delta(ray));
    assert s >= 0.0 && s * s == b * b - 4.0 * a * c;
    PickedCandidateIsRoot(a, b, c, s, InitialGuessFixed(m, ray));
  }

  /**
   * The guess PickGuess makes between the two candidates built from a root
   * s of the discriminant is, when finite, a root of a·t² + b·t + c.
   */
  lemma PickedCandidateIsRoot(a: real, b: real, c: real, s: real, t: Float)
    requires a > 0.0 && s >= 0.0 && s * s == b * b - 4.0 * a * c && t.Num?
    requires t == PickGuess(DivPosZero(Sign(b) * (-Abs(b) - s), 2.0 * a), DivNegZero(Sign(b) * (2.0 * c), -Abs(b) - s), b)
    ensures a * t.v * t.v + b * t.v + c == 0.0
  {
    CandidateEquation(Sign(b) * (-Abs(b) - s), 2.0 * a, Sign(b) * (2.0 * c), -Abs(b) - s, t);
    CandidateIsRoot(a, b, c, s, Sign(b), Abs(b), t.v);
  }

  /** A finite value that is one of the quotients n1 / d1 (d1 > 0) and n2 / d2 (d2 <= 0) solves its equation. */
  lemma CandidateEquation(n1: real, d1: real, n2: real, d2: real, t: Float)
    requires d1 > 0.0 && d2 <= 0.0 && t.Num?
    requires t == DivPosZero(n1, d1) || t == DivNegZero(n2, d2) || t == PosInf
    ensures t.v * d1 == n1 || (d2 != 0.0 && t.v * d2 == n2)
  {
  }

  /** Either candidate is a root of a·t² + b·t + c when s² = b² - 4ac. */
  lemma CandidateIsRoot(a: real, b: real, c: real, s: real, sg: real, ab: real, t: real)
    requires a > 0.0 && s * s == b * b - 4.0 * a * c && (sg == 1.0 || sg == -1.0) && sg * -ab == -b
    requires t * (2.0 * a) == sg * (-ab - s) || (-ab - s != 0.0 && t * (-ab - s) == sg * (2.0 * c))
    ensures a * t * t + b * t + c == 0.0
  {
    if t * (2.0 * a) == sg * (-ab - s) {
      RootAbove(a, b, c, s, sg, ab, t);
    } else {
      RootBelow(a, b, c, s, sg, ab, t);
    }
  }

  /** The first candidate (-b - σ·s) / 2a is a root when s² = b² - 4ac. */
  lemma RootAbove(a: real, b: real, c: real, s: real, sg: real, ab: real, t: real)
    requires a > 0.0 && s * s == b * b - 4.0 * a * c && (sg == 1.0 || sg == -1.0)
    requires sg * -ab == -b
    requires t * (2.0 * a) == sg * (-ab - s)
    ensures a * t * t + b * t + c == 0.0
  {
    var e := -b - sg * s;
    assert t * (2.0 * a) == e;
    assert sg * sg == 1.0;
    assert e * e == b * b + 2.0 * b * sg * s + s * s;
    assert 4.0 * a * (a * t * t + b * t + c) == e * e + 2.0 * b * e + 4.0 * a * c;
  }

  /** The second candidate 2c / (-b - σ·s) is a root when s² = b² - 4ac and the divisor is not zero. */
  lemma RootBelow(a: real, b: real, c: real, s: real, sg: real, ab: real, t: real)
    requires s * s == b * b - 4.0 * a * c && (sg == 1.0 || sg == -1.0)
    requires sg * -ab == -b
    requires -ab - s != 0.0
    requires t * (-ab - s) == sg * (2.0 * c)
    ensures a * t * t + b * t + c == 0.0
  {
    var e := -b - sg * s;
    assert sg * (-ab - s) == e;
    assert sg * sg == 1.0;
    assert t * e == 2.0 * c;
    assert e * e == b * b + 2.0 * b * sg * s + s * s;
    assert e * e * (a * t * t + b * t + c) == c * (4.0 * a * c + 2.0 * b * e + e * e);
    assert e * e * (a * t * t + b * t + c) == 0.0;
  }

  // ---------------------------------------------------------------- Newton's method along a ray

  /** g(t): the inside-outside value at the ray's point at time t. */
  function G(m: Math, ray: Ray, t: real, e: real, n: real): real
    requires e != 0.0 && n != 0.0
  {
    InsideOutside(m, At(ray, t), e, n)
  }

  /** g'(t): the ray direction dotted with the gradient at the ray's point at time t. */
  function DG(m: Math, ray: Ray, t: real, e: real, n: real): real
    requires e != 0.0 && n != 0.0
  {
    Dot3(ray.direction, Grad(m, At(ray, t), e, n))
  }

  /** The stopping test: |g'(t)| <= EPSILON and |g(t)| <= EPSILON at a finite t. */
  predicate Converged(m: Math, ray: Ray, t: Float, e: real, n: real)
    requires e != 0.0 && n != 0.0
  {
    t.Num? && Abs(DG(m, ray, t.v, e, n)) <= EPSILON && Abs(G(m, ray, t.v, e, n)) <= EPSILON
  }

  /**
   * t - g/0 for a finite t and the slope 0 with the given sign: g/0 is an
   * infinity with g's sign, flipped for -0 (NaN when g is 0 as well), and the
   * difference is the opposite infinity.
   */
  function FlatUpdate(g: real, negativeZero: bool): (r: Float)
    ensures r != NaN ==> r == PosInf || r == NegInf
    ensures r == NaN <==> g == 0.0
  {
    if g == 0.0 then NaN
    else if negativeZero == (g > 0.0) then PosInf
    else NegInf
  }

  /** FlatUpdate is the opposite of the IEEE quotient g/+0 or g/-0 (NaN stays NaN). */
  lemma FlatUpdateNegatesQuotient(g: real, negativeZero: bool)
    ensures var q := if negativeZero then DivNegZero(g, 0.0) else DivPosZero(g, 0.0);
      (FlatUpdate(g, negativeZero) == PosInf <==> q == NegInf) &&
      (FlatUpdate(g, negativeZero) == NegInf <==> q == PosInf) &&
      (FlatUpdate(g, negativeZero) == NaN <==> q == NaN)
  {
  }

  /**
   * One update t - g(t)/g'(t). From a finite t with a zero slope it is
   * FlatUpdate's infinity; from a non-finite t the point, g and g' are not
   * finite and the update is NaN.
   */
  function NewtonStep(m: Math, ray: Ray, t: Float, e: real, n: real): (r: Float)
    requires e != 0.0 && n != 0.0
    ensures r.Num? <==> t.Num? && DG(m, ray, t.v, e, n) != 0.0
    ensures !t.Num? ==> r == NaN
  {
    if !t.Num? then NaN
    else if DG(m, ray, t.v, e, n) != 0.0 then Num(t.v - G(m, ray, t.v, e, n) / DG(m, ray, t.v, e, n))
    else FlatUpdate(G(m, ray, t.v, e, n), m.slopeZeroNegative(ray.origin, ray.direction, t.v, e, n))
  }

  /**
   * An update is +inf exactly at a finite t with a zero slope, a nonzero g,
   * and g negative over +0 or positive over -0.
   */
  lemma NewtonStepOverflow(m: Math, ray: Ray, t: Float, e: real, n: real)
    requires e != 0.0 && n != 0.0
    ensures NewtonStep(m, ray, t, e, n) == PosInf <==>
      t.Num? && DG(m, ray, t.v, e, n) == 0.0 &&
      (if m.slopeZeroNegative(ray.origin, ray.direction, t.v, e, n)
       then G(m, ray, t.v, e, n) > 0.0 else G(m, ray, t.v, e, n) < 0.0)
  {
  }

  /** A finite update is where the tangent line through (t, g(t)) with slope g'(t) reaches zero. */
  lemma NewtonStepOnTangent(m: Math, ray: Ray, t: Float, e: real, n: real)
    requires e != 0.0 && n != 0.0 && NewtonStep(m, ray, t, e, n).Num?
    ensures (t.v - NewtonStep(m, ray, t, e, n).v) * DG(m, ray, t.v, e, n) == G(m, ray, t.v, e, n)
  {
    var g, dg := G(m, ray, t.v, e, n), DG(m, ray, t.v, e, n);
    QuotientTimesDivisor(g, dg);
  }

  /** The Newton update for one body-space ray, as a function on iterates. */
  function Update(m: Math, ray: Ray, e: real, n: real): Float -> Float
    requires e != 0.0 && n != 0.0
  {
    t => NewtonStep(m, ray, t, e, n)
  }

  /** The stopping test for one body-space ray, as a predicate on iterates. */
  function Done(m: Math, ray: Ray, e: real, n: real): Float -> bool
    requires e != 0.0 && n != 0.0
  {
    t => Converged(m, ray, t, e, n)
  }

  /** The k-th iterate from t0. */
  function Iterate(step: Float -> Float, t0: Float, k: nat): Float
  {
    if k == 0 then t0 else step(Iterate(step, t0, k - 1))
  }

  /**
   * The loop from update number `iter` on, with `tOld` the current iterate:
   * it stops at the cap, and it stops BEFORE an iterate that passes `done`,
   * returning the previous one.
   */
  function NewtonRun(step: Float -> Float, done: Float -> bool, tOld: Float, iter: nat): Float
    decreases MAX_ITERS - iter
  {
    if iter >= MAX_ITERS then tOld
    else
      var tNew := step(tOld);
      if done(tNew) then tOld else NewtonRun(step, done, tNew, iter + 1)
  }

  /** NewtonIterativeSolver's result for a body-space ray. */
  function NewtonResult(m: Math, ray: Ray, e: real, n: real): Float
    requires e != 0.0 && n != 0.0
  {
    var t0 := InitialGuess(ray);
    if t0 == PosInf then PosInf
    else if Converged(m, ray, t0, e, n) then t0
    else NewtonRun(Update(m, ray, e, n), Done(m, ray, e, n), t0, 0)
  }

  /** NewtonIterativeSolver. */
  method NewtonIterativeSolver(m: Math, ray: Ray, e: real, n: real) returns (t: Float)
    requires e != 0.0 && n != 0.0
    ensures t == NewtonResult(m, ray, e, n)
  {
    var tOld := InitialGuess(ray);
    if tOld == PosInf {
      return PosInf;
    }
    if Converged(m, ray, tOld, e, n) {
      return tOld;
    }
    ghost var step, done := Update(m, ray, e, n), Done(m, ray, e, n);
    var iter := 0;
    while iter < MAX_ITERS
      invariant 0 <= iter <= MAX_ITERS
      invariant NewtonRun(step, done, tOld, iter) == NewtonRun(step, done, InitialGuess(ray), 0)
    {
      var tNew := NewtonStep(m, ray, tOld, e, n);
      assert tNew == step(tOld);
      if Converged(m, ray, tNew, e, n) {
        assert done(tNew);
        break;
      }
      tOld := tNew;
      iter := iter + 1;
    }
    t := tOld;
  }

  /** Iterate k + 1 from t0 is iterate k from t0's update. */
  lemma {:induction false} IterateShift(step: Float -> Float, t0: Float, k: nat)
    ensures Iterate(step, t0, k + 1) == Iterate(step, step(t0), k)
  {
    if k > 0 {
      IterateShift(step, t0, k - 1);
    }
  }

  /** Once an iterate is NaN (a fixed point of the update that never passes) the loop returns NaN. */
  lemma {:induction false} NewtonRunFromNaN(step: Float -> Float, done: Float -> bool, iter: nat)
    requires step(NaN) == NaN && !done(NaN)
    ensures NewtonRun(step, done, NaN, iter) == NaN
    decreases MAX_ITERS - iter
  {
    if iter < MAX_ITERS {
      NewtonRunFromNaN(step, done, iter + 1);
    }
  }

  /**
   * From an iterate other than +inf, the loop ends on +inf only when the
   * iterate at the cap is +inf, provided the update takes +inf to NaN and
   * keeps NaN, which never passes: an earlier +inf is followed by NaN for good.
   */
  lemma {:induction false} NewtonRunInfinite(step: Float -> Float, done: Float -> bool, tOld: Float, iter: nat)
    requires step(PosInf) == NaN && step(NaN) == NaN && !done(NaN)
    requires tOld != PosInf && iter <= MAX_ITERS
    ensures NewtonRun(step, done, tOld, iter) == PosInf ==> Iterate(step, tOld, MAX_ITERS - iter) == PosInf
    decreases MAX_ITERS - iter
  {
    if iter < MAX_ITERS {
      var tNew := step(tOld);
      if !done(tNew) {
        IterateShift(step, tOld, MAX_ITERS - iter - 1);
        if tNew != PosInf {
          NewtonRunInfinite(step, done, tNew, iter + 1);
        } else if iter + 1 < MAX_ITERS {
          NewtonRunFromNaN(step, done, iter + 2);
          assert NewtonRun(step, done, tNew, iter + 1) == NaN;
        }
      }
    }
  }

  /**
   * The solver returns +inf when the starting guess is +inf, and otherwise
   * only when the iterate at the cap is +inf (reached from a flat point of g
   * by NewtonStepOverflow).
   */
  lemma NewtonInfiniteCases(m: Math, ray: Ray, e: real, n: real)
    requires e != 0.0 && n != 0.0
    ensures InitialGuess(ray) == PosInf ==> NewtonResult(m, ray, e, n) == PosInf
    ensures NewtonResult(m, ray, e, n) == PosInf ==>
      InitialGuess(ray) == PosInf || Iterate(Update(m, ray, e, n), InitialGuess(ray), MAX_ITERS) == PosInf
  {
    var t0 := InitialGuess(ray);
    var step, done := Update(m, ray, e, n), Done(m, ray, e, n);
    if t0 != PosInf && !Converged(m, ray, t0, e, n) {
      assert step(PosInf) == NaN && step(NaN) == NaN && !done(NaN);
      NewtonRunInfinite(step, done, t0, 0);
    }
  }

  /**
   * Run from the j-th iterate, when the first iterate after j that passes is
   * number `stop` (or `stop` is MAX_ITERS + 1 and none up to the cap
   * passes): the result is iterate stop - 1.
   */
  lemma {:induction false} NewtonRunFrom(step: Float -> Float, done: Float -> bool, t0: Float, j: nat, stop: nat)
    requires j < stop <= MAX_ITERS + 1
    requires stop <= MAX_ITERS ==> done(Iterate(step, t0, stop))
    requires forall i {:trigger done(Iterate(step, t0, i))} :: j < i < stop ==> !done(Iterate(step, t0, i))
    ensures NewtonRun(step, done, Iterate(step, t0, j), j) == Iterate(step, t0, stop - 1)
    decreases MAX_ITERS - j
  {
    var tj := Iterate(step, t0, j);
    if j < MAX_ITERS {
      var next := Iterate(step, t0, j + 1);
      assert step(tj) == next;
      if j + 1 < stop {
        assert !done(next);
        NewtonRunFrom(step, done, t0, j + 1, stop);
        assert NewtonRun(step, done, tj, j) == NewtonRun(step, done, next, j + 1);
      } else {
        assert done(next);
        assert NewtonRun(step, done, tj, j) == tj;
      }
    } else {
      assert j + 1 == stop;
      assert NewtonRun(step, done, tj, j) == tj;
    }
  }

  /**
   * When the guess itself has not converged and iterate k (1 <= k <=
   * MAX_ITERS) is the first that does, the solver returns iterate k - 1:
   * the one BEFORE the converged iterate.
   */
  lemma NewtonReturnsIterateBeforeConverged(m: Math, ray: Ray, e: real, n: real, k: nat)
    requires e != 0.0 && n != 0.0
    requires InitialGuess(ray) != PosInf && !Converged(m, ray, InitialGuess(ray), e, n)
    requires 1 <= k <= MAX_ITERS
    requires Converged(m, ray, Iterate(Update(m, ray, e, n), InitialGuess(ray), k), e, n)
    requires forall i :: 1 <= i < k ==> !Converged(m, ray, Iterate(Update(m, ray, e, n), InitialGuess(ray), i), e, n)
    ensures NewtonResult(m, ray, e, n) == Iterate(Update(m, ray, e, n), InitialGuess(ray), k - 1)
  {
    var step, done := Update(m, ray, e, n), Done(m, ray, e, n);
    forall i | 0 < i < k
      ensures !done(Iterate(step, InitialGuess(ray), i))
    {
    }
    NewtonRunFrom(step, done, InitialGuess(ray), 0, k);
  }

  /**
   * When no iterate up to the cap converges, the solver returns iterate
   * MAX_ITERS unchanged: nothing rejects an unconverged result.
   */
  lemma NewtonReturnsLastIterateAtCap(m: Math, ray: Ray, e: real, n: real)
    requires e != 0.0 && n != 0.0
    requires InitialGuess(ray) != PosInf
    requires forall i :: 0 <= i <= MAX_ITERS ==> !Converged(m, ray, Iterate(Update(m, ray, e, n), InitialGuess(ray), i), e, n)
    ensures NewtonResult(m, ray, e, n) == Iterate(Update(m, ray, e, n), InitialGuess(ray), MAX_ITERS)
  {
    var step, done := Update(m, ray, e, n), Done(m, ray, e, n);
    assert Iterate(step, InitialGuess(ray), 0) == InitialGuess(ray);
    forall i | 0 < i < MAX_ITERS + 1
      ensures !done(Iterate(step, InitialGuess(ray), i))
    {
    }
    NewtonRunFrom(step, done, InitialGuess(ray), 0, MAX_ITERS + 1);
  }

  // ---------------------------------------------------------------- closest hits

  /** The pair (t, intersection) the intersection routines return. */
  datatype Hit = Hit(t: Float, hit: Intersection)

  /** The "no hit" pair: +inf and the empty intersection. */
  function NoHit(): (h: Hit)
    ensures h.t == PosInf && h.hit.obj == None
  {
    Hit(PosInf, EmptyIntersection())
  }

  /** One step of the fold: the candidate replaces the best so far only when strictly closer. */
  function Pick(best: Hit, candidate: Hit): Hit
  {
    if Less(candidate.t, best.t) then candidate else best
  }

  /** The fold over hits in order, starting from NoHit. */
  function Closest(hs: seq<Hit>): Hit
  {
    if hs == [] then NoHit() else Pick(Closest(hs[..|hs| - 1]), hs[|hs| - 1])
  }

  /** No hit in the list is strictly closer than the result. */
  lemma {:induction false} ClosestIsMinimal(hs: seq<Hit>)
    ensures forall i :: 0 <= i < |hs| ==> !Less(hs[i].t, Closest(hs).t)
    ensures Closest(hs).t == PosInf || Less(Closest(hs).t, PosInf)
  {
    if hs != [] {
      var k := |hs| - 1;
      ClosestIsMinimal(hs[..k]);
      var c := Closest(hs[..k]);
      forall i | 0 <= i < |hs|
        ensures !Less(hs[i].t, Closest(hs).t)
      {
        if i < k {
          assert hs[..k][i] == hs[i];
          LessIsStrictOrder(hs[i].t, hs[k].t, c.t);
        } else {
          LessIsStrictOrder(hs[i].t, hs[i].t, c.t);
        }
      }
      LessIsStrictOrder(hs[k].t, c.t, PosInf);
    }
  }

  /**
   * The result is NoHit exactly when no hit is closer than +inf; otherwise it
   * is one of the hits, and every earlier hit is strictly farther (or NaN):
   * ties go to the first.
   */
  lemma {:induction false} ClosestIsFirstMinimum(hs: seq<Hit>)
    ensures Closest(hs) == NoHit() <==> forall j :: 0 <= j < |hs| ==> !Less(hs[j].t, PosInf)
    ensures Closest(hs) != NoHit() ==>
      exists i :: 0 <= i < |hs| && Closest(hs) == hs[i] &&
        forall j :: 0 <= j < i ==> hs[j].t == NaN || Less(hs[i].t, hs[j].t)
  {
    if hs != [] {
      var k := |hs| - 1;
      var init := hs[..k];
      ClosestIsFirstMinimum(init);
      ClosestIsMinimal(init);
      var c := Closest(init);
      assert forall j :: 0 <= j < k ==> init[j] == hs[j];
      if Less(hs[k].t, c.t) {
        assert Closest(hs) == hs[k];
        LessIsStrictOrder(hs[k].t, c.t, PosInf);
        assert Closest(hs) != NoHit();
        forall j | 0 <= j < k
          ensures hs[j].t == NaN || Less(hs[k].t, hs[j].t)
        {
          assert !Less(init[j].t, c.t);
          LessIsStrictOrder(hs[j].t, hs[k].t, c.t);
          LessIsStrictOrder(hs[k].t, hs[j].t, c.t);
        }
      } else {
        assert Closest(hs) == c;
        if c == NoHit() {
          LessIsStrictOrder(hs[k].t, PosInf, PosInf);
        } else {
          LessIsStrictOrder(c.t, PosInf, PosInf);
          var i :| 0 <= i < k && c == init[i] &&
            forall j :: 0 <= j < i ==> init[j].t == NaN || Less(init[i].t, init[j].t);
          assert Closest(hs) == hs[i];
          assert Less(hs[i].t, PosInf) by {
            assert c.t == PosInf || Less(c.t, PosInf);
          }
        }
      }
    }
  }

  /**
   * The body-space surface ray at a finite t: the point on the ray and the
   * superquadric's normal there. (A non-finite t gives NaN vectors in the
   * source; the model uses zero vectors.)
   */
  function SurfaceRay(m: Math, sq: Node, body: Ray, t: Float): Ray
    requires SqrtLaw(m) && sq.Superquadric? && sq.exp0 != 0.0 && sq.exp1 != 0.0
  {
    if t.Num? then Ray(At(body, t.v), GetNormal(m, sq, At(body, t.v))) else Ray(Zero3, Zero3)
  }

  /**
   * ClosestIntersection's result. A superquadric takes the ray into body
   * space, runs the solver, and on a miss returns NoHit; otherwise it returns
   * the body-space t with the surface ray carried back to the parent space.
   * An assembly folds its children's results for the assembly-space ray and
   * carries the winner's location back, unless the winner's t is +inf.
   */
  function ClosestHit(m: Math, node: Node, ray: Ray): Hit
    requires SqrtLaw(m) && ExpsNonzero(node)
    decreases node, 1
  {
    match node
    case Superquadric(ts, e0, e1, _, _, _) =>
      var body := Transformed(ray, BodyFromParent(m, ts));
      var t := NewtonResult(m, body, e0, e1);
      if t == PosInf then NoHit()
      else Hit(t, MakeIntersection(Transformed(SurfaceRay(m, node, body, t), ParentFromBody(m, ts)), node))
    case Assembly(ts, _) =>
      var best := Closest(ChildHits(m, node, Transformed(ray, BodyFromParent(m, ts))));
      if best.t == PosInf then best
      else best.(hit := best.hit.(location := Transformed(best.hit.location, ParentFromBody(m, ts))))
  }

  /** The children's results for a ray in the assembly's space, in child order. */
  function ChildHits(m: Math, node: Node, ray: Ray): (hs: seq<Hit>)
    requires SqrtLaw(m) && ExpsNonzero(node) && node.Assembly?
    ensures |hs| == |node.children|
    ensures forall i :: 0 <= i < |hs| ==> hs[i] == ClosestHit(m, node.children[i], ray)
    decreases node, 0
  {
    seq(|node.children|, i requires 0 <= i < |node.children| => ClosestHit(m, node.children[i], ray))
  }

  /** Superquadric::ClosestIntersection and Assembly::ClosestIntersection. */
  method ClosestIntersection(m: Math, node: Node, ray: Ray) returns (closest: Hit)
    requires SqrtLaw(m) && ExpsNonzero(node)
    ensures closest == ClosestHit(m, node, ray)
    decreases node, 1
  {
    var inverseTransform := BodyFromParentLoop(m, node.transforms);
    var rayBody := Transformed(ray, inverseTransform);
    match node
    case Superquadric(ts, e0, e1, _, _, _) =>
      var tFinal := NewtonIterativeSolver(m, rayBody, e0, e1);
      if tFinal == PosInf {
        return NoHit();
      }
      var loc := new MutableRay(SurfaceRay(m, node, rayBody, tFinal));
      var finalTransform := ParentFromBodyLoop(m, ts);
      loc.Transform(finalTransform);
      closest := Hit(tFinal, MakeIntersection(loc.Value(), node));
    case Assembly(ts, children) =>
      var globalClosest := ClosestChild(m, node, rayBody);
      if globalClosest.t == PosInf {
        return globalClosest;
      }
      var finalTransform := ParentFromBodyLoop(m, ts);
      var loc := new MutableRay(globalClosest.hit.location);
      loc.Transform(finalTransform);
      closest := globalClosest.(hit := globalClosest.hit.(location := loc.Value()));
  }

  /** Assembly::ClosestIntersection's loop: each child's closest hit in turn, kept when strictly closer. */
  method ClosestChild(m: Math, node: Node, rayBody: Ray) returns (globalClosest: Hit)
    requires SqrtLaw(m) && ExpsNonzero(node) && node.Assembly?
    ensures globalClosest == Closest(ChildHits(m, node, rayBody))
    decreases node, 0
  {
    ghost var hits := ChildHits(m, node, rayBody);
    var children := node.children;
    globalClosest := NoHit();
    var j := 0;
    while j < |children|
      invariant 0 <= j <= |children|
      invariant globalClosest == Closest(hits[..j])
    {
      var childClosest := ClosestIntersection(m, children[j], rayBody);
      assert hits[..j + 1][..j] == hits[..j];
      if Less(childClosest.t, globalClosest.t) {
        globalClosest := childClosest;
      }
      j := j + 1;
    }
    assert hits[..|children|] == hits;
  }

  /** `leaf` is a superquadric somewhere in the tree under `node`. */
  predicate HasLeaf(node: Node, leaf: Node)
    decreases node
  {
    match node
    case Superquadric(_, _, _, _, _, _) => leaf == node
    case Assembly(_, cs) => exists i :: 0 <= i < |cs| && HasLeaf(cs[i], leaf)
  }

  /**
   * A result at +inf is exactly NoHit, and any object a result names is a
   * superquadric of the tree.
   */
  lemma {:induction false} ClosestHitShape(m: Math, node: Node, ray: Ray)
    requires SqrtLaw(m) && ExpsNonzero(node)
    ensures ClosestHit(m, node, ray).t == PosInf ==> ClosestHit(m, node, ray) == NoHit()
    ensures ClosestHit(m, node, ray).hit.obj.Some? ==> HasLeaf(node, ClosestHit(m, node, ray).hit.obj.value)
    decreases node
  {
    match node
    case Superquadric(_, _, _, _, _, _) =>
    case Assembly(ts, cs) =>
      var local := Transformed(ray, BodyFromParent(m, ts));
      var hs := ChildHits(m, node, local);
      forall i | 0 <= i < |cs|
        ensures hs[i].t == PosInf ==> hs[i] == NoHit()
        ensures hs[i].hit.obj.Some? ==> HasLeaf(cs[i], hs[i].hit.obj.value)
      {
        ClosestHitShape(m, cs[i], local);
      }
      ClosestIsFirstMinimum(hs);
      ClosestIsMinimal(hs);
      var best := Closest(hs);
      if best != NoHit() {
        var i :| 0 <= i < |hs| && best == hs[i] &&
          forall j :: 0 <= j < i ==> hs[j].t == NaN || Less(hs[i].t, hs[j].t);
        if best.hit.obj.Some? {
          assert HasLeaf(cs[i], best.hit.obj.value);
        }
      }
  }

  /**
   * An assembly's distance is its closest child's distance, never rescaled:
   * no child reports a distance strictly below it, and a child that reports
   * the same distance as the winner comes no earlier than the winner.
   */
  lemma AssemblyDistanceIsClosestChild(m: Math, node: Node, ray: Ray)
    requires SqrtLaw(m) && ExpsNonzero(node) && node.Assembly?
    ensures var hs := ChildHits(m, node, Transformed(ray, BodyFromParent(m, node.transforms)));
      ClosestHit(m, node, ray).t == Closest(hs).t &&
      forall i :: 0 <= i < |hs| ==> !Less(hs[i].t, ClosestHit(m, node, ray).t)
  {
    ClosestIsMinimal(ChildHits(m, node, Transformed(ray, BodyFromParent(m, node.transforms))));
  }

  /**
   * A superquadric reports +inf when the body-space starting guess is +inf,
   * and otherwise only when the solver's iterate at the cap is +inf; any
   * other result is a hit on that superquadric.
   */
  lemma SuperquadricMissCases(m: Math, node: Node, ray: Ray)
    requires SqrtLaw(m) && ExpsNonzero(node) && node.Superquadric?
    ensures var body := Transformed(ray, BodyFromParent(m, node.transforms));
      (InitialGuess(body) == PosInf ==> ClosestHit(m, node, ray).t == PosInf) &&
      (ClosestHit(m, node, ray).t == PosInf ==>
        InitialGuess(body) == PosInf || Iterate(Update(m, body, node.exp0, node.exp1), InitialGuess(body), MAX_ITERS) == PosInf) &&
      (ClosestHit(m, node, ray).t != PosInf ==> ClosestHit(m, node, ray).hit.obj == Some(node))
  {
    var body := Transformed(ray, BodyFromParent(m, node.transforms));
    NewtonInfiniteCases(m, body, node.exp0, node.exp1);
  }
}
