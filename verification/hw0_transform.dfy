/**
 * The first homework's transformation list (hw0 include/transform.h). Its
 * product differs from the later homeworks' in two ways. compute_product
 * pops the matrices off the back of the list, so the list is empty
 * afterwards. The product is T1·T2·…·Tk, so the LAST matrix added is the
 * first one applied to a point. add_scaling pushes a translation matrix.
 */
module Hw0Transform {
  import opened LinAlg
  import opened TransformLines

  class Transformation {
    var ts: seq<Mat4>

    /** Transformation(): an empty list. */
    constructor ()
      ensures ts == []
    {
      ts := [];
    }

    /** Transformation(ts): the given list, in order. */
    constructor FromList(list: seq<Mat4>)
      ensures ts == list
    {
      ts := list;
    }

    /** add_rotation: appends the rotation by theta radians about u. */
    method AddRotation(m: Math, u: Vec3, theta: real)
      modifies this
      ensures ts == old(ts) + [Rotation(m, u, theta)]
    {
      ts := ts + [Rotation(m, u, theta)];
    }

    /** add_translation: appends the translation by v. */
    method AddTranslation(v: Vec3)
      modifies this
      ensures ts == old(ts) + [Translation(v)]
    {
      ts := ts + [Translation(v)];
    }

    /** add_scaling: appends the TRANSLATION by v, as the header is written. */
    method AddScaling(v: Vec3)
      modifies this
      ensures ts == old(ts) + [Translation(v)]
    {
      ts := ts + [Translation(v)];
    }

    /**
     * compute_product: pops the last matrix and multiplies it on the left of
     * the running product until the list is empty. The result is
     * T1·T2·…·Tk and the list is left empty, so a second call returns the
     * identity.
     */
    method ComputeProduct() returns (prod: Mat4)
      modifies this
      ensures prod == ProductFirstLast(old(ts))
      ensures ts == []
      ensures forall v :: Apply(prod, v) == ApplyInOrder(Reverse(old(ts)), v)
    {
      ghost var orig := ts;
      prod := Identity;
      assert orig[|ts|..] == [];
      while ts != []
        invariant ts == orig[..|ts|]
        invariant prod == ProductFirstLast(orig[|ts|..])
        decreases |ts|
      {
        var t := ts[|ts| - 1];
        ProductFirstLastCons(orig, |ts| - 1);
        prod := Mul(t, prod);
        ts := ts[..|ts| - 1];
      }
      assert orig[0..] == orig;
      forall v {
        ProductFirstLastAppliesReversed(orig, v);
      }
    }
  }

  /** The matrix the Transformation list receives for a record: a scaling record becomes a translation. */
  function PushedMatrix(spec: TransformSpec, m: Math): Mat4
  {
    match spec
    case RotationSpec(u, angle) => Rotation(m, u, angle)
    case TranslationSpec(v) => Translation(v)
    case ScalingSpec(v) => Translation(v)
  }

  /** The list's contents after the records specs were added, in order. */
  function PushedMatrices(specs: seq<TransformSpec>, m: Math): (r: seq<Mat4>)
    ensures |r| == |specs|
    ensures forall i :: 0 <= i < |specs| ==> r[i] == PushedMatrix(specs[i], m)
  {
    if specs == [] then [] else [PushedMatrix(specs[0], m)] + PushedMatrices(specs[1..], m)
  }

  lemma PushedMatricesSnoc(specs: seq<TransformSpec>, spec: TransformSpec, m: Math)
    ensures PushedMatrices(specs + [spec], m) == PushedMatrices(specs, m) + [PushedMatrix(spec, m)]
  {
  }

  /**
   * A list built by add_scaling(v) alone moves every point by v instead of
   * scaling it.
   */
  lemma ScalingListTranslates(v: Vec3, p: Vec3)
    ensures Apply(ProductFirstLast([Translation(v)]), Point(p)) == Point(Add3(p, v))
  {
    var t := Translation(v);
    assert [t][1..] == [];
    ApplyMul(t, Identity, Point(p));
    ApplyIdentity(Point(p));
  }

  /** The matrix add_scaling pushes for a scaling record moves every point by the factor vector. */
  lemma PushedScalingTranslates(v: Vec3, p: Vec3, m: Math)
    ensures Apply(ProductFirstLast(PushedMatrices([ScalingSpec(v)], m)), Point(p)) == Point(Add3(p, v))
  {
    var ps := PushedMatrices([ScalingSpec(v)], m);
    assert ps == [Translation(v)];
    assert ProductFirstLast(ps) == Translation(v) by {
      assert ps[1..] == [];
      IdentityIsUnit(Translation(v), Point(p));
    }
  }

  /**
   * The matrix a scaling record is meant to add (the scaling matrix, as
   * SpecMatrix gives it) scales every point coordinate by coordinate.
   */
  lemma IntendedScalingScales(v: Vec3, p: Vec3, m: Math)
    ensures Apply(ProductFirstLast(SpecMatrices([ScalingSpec(v)], m)), Point(p)) == Stretch(v, Point(p))
  {
    var ms := SpecMatrices([ScalingSpec(v)], m);
    assert ms == [Scaling(v)];
    assert ProductFirstLast(ms) == Scaling(v) by {
      assert ms[1..] == [];
      IdentityIsUnit(Scaling(v), Point(p));
    }
  }

  /**
   * The two composition orders: the first-to-last product of a list is the
   * last-to-first product of the reversed list. So this product and hw1's
   * agree exactly when the list reads the same both ways.
   */
  lemma Hw0OrderIsReversedHw1Order(ms: seq<Mat4>)
    ensures ProductFirstLast(ms) == ProductLastFirst(Reverse(ms))
    ensures ms == Reverse(ms) ==> ProductFirstLast(ms) == ProductLastFirst(ms)
  {
    ProductFirstLastIsReversed(ms);
  }
}
