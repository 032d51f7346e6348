/**
 * The wireframe renderer's transformation list (hw1 transform.cpp): the
 * rotation, translation and scaling matrices, appended in file order, and
 * their product Tk·…·T1, so that the first transformation read is the first
 * one applied to a point.
 */
module Hw1Transform {
  import opened LinAlg

  class Transformation {
    var ts: seq<Mat4>

    /** Transformation(): an empty list. */
    constructor ()
      ensures ts == []
    {
      ts := [];
    }

    /** add_rotation: appends the rotation by rad radians about u. */
    method AddRotation(m: Math, u: Vec3, rad: real)
      modifies this
      ensures ts == old(ts) + [Rotation(m, u, rad)]
    {
      ts := ts + [Rotation(m, u, rad)];
    }

    /** add_translation: appends the translation by v. */
    method AddTranslation(v: Vec3)
      modifies this
      ensures ts == old(ts) + [Translation(v)]
    {
      ts := ts + [Translation(v)];
    }

    /** add_scaling: appends the scaling by v. */
    method AddScaling(v: Vec3)
      modifies this
      ensures ts == old(ts) + [Scaling(v)]
    {
      ts := ts + [Scaling(v)];
    }

    /**
     * compute_product: the identity multiplied on the left by each matrix in
     * order, Tk·…·T1. It changes nothing, so repeated calls agree; with no
     * matrices it is the identity.
     */
    method ComputeProduct() returns (prod: Mat4)
      ensures prod == ProductLastFirst(ts)
      ensures ts == [] ==> prod == Identity
      ensures forall v :: Apply(prod, v) == ApplyInOrder(ts, v)
    {
      prod := MultiplyLastFirst(ts);
      forall v {
        ProductLastFirstAppliesInOrder(ts, v);
      }
    }
  }

  /** The last row of every rotation, translation and scaling is (0, 0, 0, 1). */
  predicate Affine(t: Mat4)
  {
    t.r3 == Vec4(0.0, 0.0, 0.0, 1.0)
  }

  /** Each of the three constructors gives an affine matrix. */
  lemma BasicTransformsAreAffine(m: Math, u: Vec3, rad: real, v: Vec3)
    ensures Affine(Rotation(m, u, rad)) && Affine(Translation(v)) && Affine(Scaling(v))
  {
  }

  /** A product of affine matrices is affine, so it keeps w = 1. */
  lemma {:induction false} AffineProduct(ms: seq<Mat4>)
    requires forall i :: 0 <= i < |ms| ==> Affine(ms[i])
    ensures Affine(ProductLastFirst(ms))
    ensures forall v: Vec4 :: v.w == 1.0 ==> Apply(ProductLastFirst(ms), v).w == 1.0
  {
    if ms != [] {
      var init := ms[..|ms| - 1];
      AffineProduct(init);
      AffineMul(ms[|ms| - 1], ProductLastFirst(init));
    }
  }

  lemma AffineMul(a: Mat4, b: Mat4)
    requires Affine(a) && Affine(b)
    ensures Affine(Mul(a, b))
  {
    ScaleByUnitOrZero(b.r0);
    ScaleByUnitOrZero(b.r1);
    ScaleByUnitOrZero(b.r2);
    ScaleByUnitOrZero(b.r3);
  }
}
