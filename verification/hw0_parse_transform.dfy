/**
 * The second program of hw0 Part2 (parse_transform.cpp). It reads the same
 * records as transform.cpp into the shared Transformation list of hw0's
 * transform.h, throws at an unknown record type, and returns that list's
 * compute_product. Since the list's add_scaling pushes a translation, an
 * 's' record moves points instead of scaling them.
 */
module Hw0ParseTransform {
  import opened Wrappers
  import opened LinAlg
  import opened Streams
  import opened TransformLines
  import opened TransformWords
  import opened Hw0Transform

  /**
   * create_transformation_matrix: None when it throws at a record of an
   * unknown type; otherwise the product T1·T2·…·Tk of the list built from
   * the records, which applies the last record first.
   */
  method CreateTransformationMatrix(input: seq<string>, strtod: string -> real, m: Math) returns (r: Option<Mat4>)
    requires IsWordStream(input)
    ensures r.None? <==> WordSpecs(input, ["", "", "", ""], strtod).unknown
    ensures r.Some? ==> r.value == ProductFirstLast(PushedMatrices(WordSpecs(input, ["", "", "", ""], strtod).specs, m))
    ensures r.Some? ==>
      (forall v :: Apply(r.value, v)
                == ApplyInOrder(Reverse(PushedMatrices(WordSpecs(input, ["", "", "", ""], strtod).specs, m)), v))
  {
    ghost var list := PushedMatrices(WordSpecs(input, ["", "", "", ""], strtod).specs, m);
    var ts := new Transformation();
    var thrown := AddRecords(ts, input, strtod, m);
    if thrown {
      return None;
    }
    var product := ts.ComputeProduct();
    assert product == ProductFirstLast(list);
    return Some(product);
  }

  /**
   * The reading loop of create_transformation_matrix: adds each record to
   * ts, and reports whether it stopped at a record of an unknown type (the
   * throw).
   */
  method AddRecords(ts: Transformation, input: seq<string>, strtod: string -> real, m: Math) returns (thrown: bool)
    requires IsWordStream(input) && ts.ts == []
    modifies ts
    ensures thrown == WordSpecs(input, ["", "", "", ""], strtod).unknown
    ensures !thrown ==> ts.ts == PushedMatrices(WordSpecs(input, ["", "", "", ""], strtod).specs, m)
  {
    ghost var total := WordSpecs(input, ["", "", "", ""], strtod);
    ghost var done: seq<TransformSpec> := [];
    var ws := input;
    var n1, n2, n3, n4 := "", "", "", "";
    while true
      invariant IsWordStream(ws)
      invariant ts.ts == PushedMatrices(done, m)
      invariant done + WordSpecs(ws, [n1, n2, n3, n4], strtod).specs == total.specs
      invariant WordSpecs(ws, [n1, n2, n3, n4], strtod).unknown == total.unknown
      decreases |ws|
    {
      var typed := ExtractChar(ws);
      if typed.None? {
        break;
      }
      var c, after := typed.value.value, typed.value.rest;
      ghost var before := WordSpecs(ws, [n1, n2, n3, n4], strtod);
      WordSpecsStep(ws, c, after, [n1, n2, n3, n4], strtod);
      ghost var spec;
      label before:
      if c == 'r' {
        var chain := ExtractWords(after, [n1, n2, n3, n4]);
        n1, n2, n3, n4 := chain.1[0], chain.1[1], chain.1[2], chain.1[3];
        var u := Vec3(strtod(n1), strtod(n2), strtod(n3));
        var theta := strtod(n4);
        spec := RotationSpec(u, theta);
        ts.AddRotation(m, u, theta);
        assert ts.ts == old@before(ts.ts) + [PushedMatrix(spec, m)];
        ws := chain.2;
      } else if c == 't' || c == 's' {
        var chain := ExtractWords(after, [n1, n2, n3]);
        n1, n2, n3 := chain.1[0], chain.1[1], chain.1[2];
        var v := Vec3(strtod(n1), strtod(n2), strtod(n3));
        if c == 't' {
          spec := TranslationSpec(v);
          ts.AddTranslation(v);
        } else {
          spec := ScalingSpec(v);
          ts.AddScaling(v);
        }
        assert ts.ts == old@before(ts.ts) + [PushedMatrix(spec, m)];
        ws := chain.2;
      } else {
        return true;
      }
      PushedMatricesSnoc(done, spec, m);
      ReadOn(done, spec, before, WordSpecs(ws, [n1, n2, n3, n4], strtod));
      done := done + [spec];
    }
    return false;
  }

  /**
   * Without scaling records, the list receives exactly the matrices the
   * records stand for, so both Part2 programs compute the same product.
   */
  lemma {:induction false} AgreesWithoutScaling(specs: seq<TransformSpec>, m: Math)
    requires forall i :: 0 <= i < |specs| ==> !specs[i].ScalingSpec?
    ensures PushedMatrices(specs, m) == SpecMatrices(specs, m)
    ensures ProductFirstLast(PushedMatrices(specs, m)) == ProductFirstLast(SpecMatrices(specs, m))
  {
    if specs != [] {
      AgreesWithoutScaling(specs[1..], m);
    }
  }

  /**
   * The file "s a b c" makes the two programs disagree whenever the factors
   * are not all zero: transform.cpp scales, so the origin stays put, while
   * parse_transform.cpp moves the origin to the factor vector.
   */
  lemma ScalingRecordTranslates(a: string, b: string, c: string, strtod: string -> real, m: Math)
    requires a != [] && b != [] && c != []
    ensures var specs := WordSpecs(["s", a, b, c], ["", "", "", ""], strtod).specs;
            var v := Vec3(strtod(a), strtod(b), strtod(c));
            specs == [ScalingSpec(v)] &&
            Apply(ProductFirstLast(PushedMatrices(specs, m)), Point(Vec3(0.0, 0.0, 0.0))) == Point(v) &&
            Apply(ProductFirstLast(SpecMatrices(specs, m)), Point(Vec3(0.0, 0.0, 0.0))) == Point(Vec3(0.0, 0.0, 0.0))
  {
    var ws := ["s", a, b, c];
    var v := Vec3(strtod(a), strtod(b), strtod(c));
    assert ExtractChar(ws) == Some(Extracted('s', [a, b, c]));
    var chain := ExtractWords([a, b, c], ["", "", ""]);
    assert chain.1 == [a, b, c] && chain.2 == [];
    WordSpecsStep(ws, 's', [a, b, c], ["", "", "", ""], strtod);
    assert WordSpecs(ws, ["", "", "", ""], strtod).specs == [ScalingSpec(v)];
    ScalingSpecTranslates(v, m);
  }

  /** The single scaling record's matrix in each program, applied to the origin. */
  lemma ScalingSpecTranslates(v: Vec3, m: Math)
    ensures Apply(ProductFirstLast(PushedMatrices([ScalingSpec(v)], m)), Point(Vec3(0.0, 0.0, 0.0))) == Point(v)
    ensures Apply(ProductFirstLast(SpecMatrices([ScalingSpec(v)], m)), Point(Vec3(0.0, 0.0, 0.0)))
         == Point(Vec3(0.0, 0.0, 0.0))
  {
    var z := Vec3(0.0, 0.0, 0.0);
    PushedScalingTranslates(v, z, m);
    IntendedScalingScales(v, z, m);
    assert Add3(z, v) == v;
    assert Stretch(v, Point(z)) == Point(z);
  }
}
