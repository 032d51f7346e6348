/**
 * The transformation records of the OpenGL programs (hw3 transform.cpp, with
 * the classes of transform.h as hw5 declares them).
 *
 * A Transform stores a transformation by its parameters rather than as a
 * matrix: the vector (x, y, z), an angle that only rotations use, and its
 * type. A Transform_Set holds them in the order they were added.
 */
module Hw3Transform {
  import opened Wrappers
  import opened LinAlg
  import opened Streams
  import opened TransformLines

  /** transformation_type: TRANSLATION = 1, ROTATION = 2, SCALING = 3. */
  datatype TransformKind = Translation | Rotation | Scaling

  /** The enum value of each type. */
  function KindValue(k: TransformKind): (n: int)
    ensures 1 <= n <= 3
  {
    match k
    case Translation => 1
    case Rotation => 2
    case Scaling => 3
  }

  /** Transform: the parameters, the rotation angle and the type. */
  datatype Transform = Transform(parameters: Vec3, angle: real, kind: TransformKind)

  /** As the two constructors leave it: only a rotation has a non-zero angle. */
  predicate WellFormed(t: Transform)
  {
    t.kind != Rotation ==> t.angle == 0.0
  }

  /** Transform_Set: the transformations in the order they were added. */
  class TransformSet {
    var transforms: seq<Transform>

    /** Every stored transformation came from one of the two constructors. */
    ghost predicate Valid()
      reads this
    {
      forall i :: 0 <= i < |transforms| ==> WellFormed(transforms[i])
    }

    /** Transform_Set(): no transformations. */
    constructor ()
      ensures transforms == [] && Valid()
    {
      transforms := [];
    }

    /** add_rotation: appends one rotation by rad radians about (x, y, z). */
    method AddRotation(x: real, y: real, z: real, rad: real)
      requires Valid()
      modifies this
      ensures transforms == old(transforms) + [Transform(Vec3(x, y, z), rad, Rotation)]
      ensures Valid()
    {
      transforms := transforms + [Transform(Vec3(x, y, z), rad, Rotation)];
    }

    /** add_translation: appends one translation by (x, y, z), with angle 0. */
    method AddTranslation(x: real, y: real, z: real)
      requires Valid()
      modifies this
      ensures transforms == old(transforms) + [Transform(Vec3(x, y, z), 0.0, Translation)]
      ensures Valid()
    {
      transforms := transforms + [Transform(Vec3(x, y, z), 0.0, Translation)];
    }

    /** add_scaling: appends one scaling by (x, y, z), with angle 0. */
    method AddScaling(x: real, y: real, z: real)
      requires Valid()
      modifies this
      ensures transforms == old(transforms) + [Transform(Vec3(x, y, z), 0.0, Scaling)]
      ensures Valid()
    {
      transforms := transforms + [Transform(Vec3(x, y, z), 0.0, Scaling)];
    }
  }

  // ---------------------------------------------------------------- print_transformation

  /** The words print_transformation writes, with show standing for `%f`. */
  function PrintTokens(t: Transform, show: real -> string): seq<string>
  {
    var p := t.parameters;
    match t.kind
    case Translation => ["t:", show(p.x), show(p.y), show(p.z)]
    case Rotation => ["r:", show(p.x), show(p.y), show(p.z), show(t.angle)]
    case Scaling => ["s:", show(p.x), show(p.y), show(p.z)]
  }

  /** print_transformation: the line it writes, without the newline. */
  function PrintTransformation(t: Transform, show: real -> string): string
  {
    Join(PrintTokens(t, show), ' ')
  }

  /** print_transform_set: one line per transformation, in order. */
  method PrintTransformSet(ts: TransformSet, show: real -> string) returns (lines: seq<string>)
    ensures |lines| == |ts.transforms|
    ensures forall i :: 0 <= i < |lines| ==> lines[i] == PrintTransformation(ts.transforms[i], show)
  {
    lines := [];
    var i := 0;
    while i < |ts.transforms|
      invariant 0 <= i <= |ts.transforms| && |lines| == i
      invariant forall j :: 0 <= j < i ==> lines[j] == PrintTransformation(ts.transforms[j], show)
    {
      lines := lines + [PrintTransformation(ts.transforms[i], show)];
      i := i + 1;
    }
  }

  // ---------------------------------------------------------------- records and line descriptions

  /** The transformation line that describes t. */
  function AsSpec(t: Transform): TransformSpec
  {
    match t.kind
    case Translation => TranslationSpec(t.parameters)
    case Rotation => RotationSpec(t.parameters, t.angle)
    case Scaling => ScalingSpec(t.parameters)
  }

  /** The record a transformation line adds to a Transform_Set. */
  function FromSpec(spec: TransformSpec): (t: Transform)
    ensures WellFormed(t)
  {
    match spec
    case RotationSpec(u, angle) => Transform(u, angle, Rotation)
    case TranslationSpec(v) => Transform(v, 0.0, Translation)
    case ScalingSpec(v) => Transform(v, 0.0, Scaling)
  }

  /** Records and line descriptions correspond one to one. */
  lemma SpecCorrespondence(t: Transform, spec: TransformSpec)
    ensures AsSpec(FromSpec(spec)) == spec
    ensures WellFormed(t) ==> FromSpec(AsSpec(t)) == t
  {
  }

  /**
   * A printed line is read back by the transformation readers (the first
   * character of "r:", "t:" or "s:" gives the type) as the transformation
   * it was printed from.
   */
  lemma PrintedTransformReads(t: Transform, strtod: string -> real, show: real -> string)
    requires Inverts(strtod, show) && WritesOneToken(show)
    ensures PrintTransformation(t, show) != []
    ensures LineSpec(PrintTransformation(t, show), strtod) == Some(AsSpec(t))
  {
    var toks := PrintTokens(t, show);
    assert toks[|toks| - 1] != [];
    assert ' ' !in toks[0];
    SplitJoin(toks, ' ');
    assert PrintTransformation(t, show) == toks[0] + [' '] + Join(toks[1..], ' ');
  }
}
