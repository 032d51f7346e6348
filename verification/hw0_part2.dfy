/**
 * The two programs of hw0 Part2, which read a file of transformation
 * records and print the inverse of their product.
 *
 * transform.cpp keeps its own vector of matrices. It builds genuine
 * scaling matrices and stops quietly at an unknown record type.
 * parse_transform.cpp uses the shared Transformation list of hw0's
 * transform.h instead, and throws at an unknown record type.
 */
module Hw0Part2Transform {
  import opened Wrappers
  import opened LinAlg
  import opened Streams
  import opened TransformLines
  import opened TransformWords

  /**
   * create_transformation_matrix: reads the records, pushing the matrix of
   * each onto a vector. Then, while the vector is not empty, it multiplies
   * its last matrix on the left of the running product and pops it. The
   * result is T1·T2·…·Tk, so the LAST record read is the first applied to a
   * point.
   */
  method CreateTransformationMatrix(input: seq<string>, strtod: string -> real, m: Math) returns (product: Mat4)
    requires IsWordStream(input)
    ensures product == ProductFirstLast(SpecMatrices(WordSpecs(input, ["", "", "", ""], strtod).specs, m))
    ensures forall v :: Apply(product, v)
                     == ApplyInOrder(Reverse(SpecMatrices(WordSpecs(input, ["", "", "", ""], strtod).specs, m)), v)
  {
    var transformations := ReadTransformations(input, strtod, m);
    product := PopProduct(transformations);
  }

  /** The reading loop of create_transformation_matrix: the matrices of the records, in file order. */
  method ReadTransformations(input: seq<string>, strtod: string -> real, m: Math) returns (transformations: seq<Mat4>)
    requires IsWordStream(input)
    ensures transformations == SpecMatrices(WordSpecs(input, ["", "", "", ""], strtod).specs, m)
  {
    ghost var total := WordSpecs(input, ["", "", "", ""], strtod).specs;
    ghost var done: seq<TransformSpec> := [];
    var ws := input;
    var n1, n2, n3, n4 := "", "", "", "";
    transformations := [];
    while true
      invariant IsWordStream(ws)
      invariant transformations == SpecMatrices(done, m)
      invariant done + WordSpecs(ws, [n1, n2, n3, n4], strtod).specs == total
      decreases |ws|
    {
      var typed := ExtractChar(ws);
      if typed.None? {
        break;
      }
      var c, after := typed.value.value, typed.value.rest;
      ghost var before := WordSpecs(ws, [n1, n2, n3, n4], strtod);
      WordSpecsStep(ws, c, after, [n1, n2, n3, n4], strtod);
      ghost var spec;
      if c == 'r' {
        var chain := ExtractWords(after, [n1, n2, n3, n4]);
        n1, n2, n3, n4 := chain.1[0], chain.1[1], chain.1[2], chain.1[3];
        var u := Vec3(strtod(n1), strtod(n2), strtod(n3));
        var theta := strtod(n4);
        transformations := transformations + [Rotation(m, u, theta)];
        spec := RotationSpec(u, theta);
        ws := chain.2;
      } else if c == 't' || c == 's' {
        var chain := ExtractWords(after, [n1, n2, n3]);
        n1, n2, n3 := chain.1[0], chain.1[1], chain.1[2];
        var v := Vec3(strtod(n1), strtod(n2), strtod(n3));
        var t := if c == 't' then Translation(v) else Scaling(v);
        transformations := transformations + [t];
        spec := if c == 't' then TranslationSpec(v) else ScalingSpec(v);
        ws := chain.2;
      } else {
        break;
      }
      SpecMatricesSnoc(done, spec, m);
      ReadOn(done, spec, before, WordSpecs(ws, [n1, n2, n3, n4], strtod));
      done := done + [spec];
    }
  }

  /**
   * The multiplication loop of create_transformation_matrix and of
   * compute_product: pops the last matrix and multiplies it on the left of
   * the running product until none is left. The result is T1·T2·…·Tk, which
   * applies the list last to first.
   */
  method PopProduct(ts: seq<Mat4>) returns (product: Mat4)
    ensures product == ProductFirstLast(ts)
    ensures forall v :: Apply(product, v) == ApplyInOrder(Reverse(ts), v)
  {
    var rest := ts;
    product := Identity;
    assert ts[|rest|..] == [];
    while rest != []
      invariant rest == ts[..|rest|]
      invariant product == ProductFirstLast(ts[|rest|..])
      decreases |rest|
    {
      var t := rest[|rest| - 1];
      ProductFirstLastCons(ts, |rest| - 1);
      product := Mul(t, product);
      rest := rest[..|rest| - 1];
    }
    assert ts[0..] == ts;
    forall v {
      ProductFirstLastAppliesReversed(ts, v);
    }
  }
}
