/**
 * The transformation blocks of the scene files (create_transformation in
 * hw0 Part3/transform.cpp, hw1, hw2 and hw5 parser.cpp). Lines are read up
 * to an empty line or the end of the file. Each line is split at single
 * spaces. The first character of the first token says what the line is:
 * 'r' is a rotation axis in tokens 1-3 with its angle in token 4, 't' is a
 * translation and 's' a scaling, each from tokens 1-3. Any other character
 * throws, and the whole block is lost.
 */
module TransformLines {
  import opened Wrappers
  import opened LinAlg
  import opened Streams

  /** One transformation line, as read. */
  datatype TransformSpec =
    | RotationSpec(u: Vec3, angle: real)
    | TranslationSpec(v: Vec3)
    | ScalingSpec(v: Vec3)

  /**
   * The matrix a transformation stands for: the rotation by `angle` radians
   * about u, the translation by v, or the scaling by v.
   */
  function SpecMatrix(spec: TransformSpec, m: Math): Mat4
  {
    match spec
    case RotationSpec(u, angle) => Rotation(m, u, angle)
    case TranslationSpec(v) => Translation(v)
    case ScalingSpec(v) => Scaling(v)
  }

  /** The matrices of a list of transformations, in the same order. */
  function SpecMatrices(specs: seq<TransformSpec>, m: Math): (r: seq<Mat4>)
    ensures |r| == |specs|
    ensures forall i :: 0 <= i < |specs| ==> r[i] == SpecMatrix(specs[i], m)
  {
    if specs == [] then [] else [SpecMatrix(specs[0], m)] + SpecMatrices(specs[1..], m)
  }

  /** `*(tokens[0].c_str())`: the first character, or NUL for an empty token. */
  function TypeChar(token: string): char
  {
    if token == [] then '\0' else token[0]
  }

  /**
   * One line's tokens. A line too short for its type would read past the
   * end of the token vector (undefined behaviour in the source); the model
   * reports that as an error, like an unknown type.
   */
  function ParseTransformTokens(tokens: seq<string>, strtod: string -> real): (r: Option<TransformSpec>)
    requires tokens != []
    ensures r.Some? <==>
      (TypeChar(tokens[0]) == 'r' && |tokens| >= 5) || ((TypeChar(tokens[0]) == 't' || TypeChar(tokens[0]) == 's') && |tokens| >= 4)
    ensures r.Some? ==> (r.value.RotationSpec? <==> TypeChar(tokens[0]) == 'r')
    ensures r.Some? ==> (r.value.ScalingSpec? <==> TypeChar(tokens[0]) == 's')
  {
    var c := TypeChar(tokens[0]);
    if c == 'r' && |tokens| >= 5 then
      Some(RotationSpec(Vec3(strtod(tokens[1]), strtod(tokens[2]), strtod(tokens[3])), strtod(tokens[4])))
    else if (c == 't' || c == 's') && |tokens| >= 4 then
      var v := Vec3(strtod(tokens[1]), strtod(tokens[2]), strtod(tokens[3]));
      Some(if c == 't' then TranslationSpec(v) else ScalingSpec(v))
    else
      None
  }

  /** A non-empty line of a block: strsplit at spaces, then the dispatch on its first token. */
  function LineSpec(line: string, strtod: string -> real): Option<TransformSpec>
    requires line != []
  {
    SplitNonEmpty(line, ' ');
    ParseTransformTokens(Split(line, ' '), strtod)
  }

  /** The position of the empty line that ends the block starting at `start`, or |lines|. */
  function BlockLast(lines: seq<string>, start: nat): (k: nat)
    requires start <= |lines|
    ensures start <= k <= |lines|
    ensures k < |lines| ==> lines[k] == []
    ensures forall i :: start <= i < k ==> lines[i] != []
    decreases |lines| - start
  {
    if start == |lines| || lines[start] == [] then start else BlockLast(lines, start + 1)
  }

  /** The block runs at least past every non-empty line that follows its start without a gap. */
  lemma {:induction false} BlockLastBeyond(lines: seq<string>, start: nat, i: nat)
    requires start <= i < |lines|
    requires forall j :: start <= j <= i ==> lines[j] != []
    ensures i < BlockLast(lines, start)
    decreases i - start
  {
    if start < i {
      BlockLastBeyond(lines, start + 1, i);
    }
  }

  /** The block ends at the first empty line, or at the end of the file. */
  lemma {:induction false} BlockLastAt(lines: seq<string>, start: nat, i: nat)
    requires start <= i <= |lines|
    requires forall j :: start <= j < i ==> lines[j] != []
    requires i == |lines| || lines[i] == []
    ensures BlockLast(lines, start) == i
    decreases i - start
  {
    if start < i {
      BlockLastAt(lines, start + 1, i);
    }
  }

  /** A rejected line anywhere in the block loses the whole block. */
  lemma RejectedLineLosesBlock(lines: seq<string>, start: nat, i: nat, strtod: string -> real)
    requires start <= i < |lines| && lines[i] != []
    requires forall j :: start <= j < i ==> lines[j] != []
    requires LineSpec(lines[i], strtod).None?
    ensures BlockSpecs(lines, start, strtod).None?
  {
    BlockLastBeyond(lines, start, i);
  }

  /**
   * Lines from `start` up to an empty line or the end of the file, each
   * yielding the transformation at its place in `done`, make up a block
   * whose transformations are `done`; reading goes on after the empty line.
   */
  lemma BlockRead(lines: seq<string>, start: nat, done: seq<TransformSpec>, strtod: string -> real)
    requires start + |done| <= |lines|
    requires forall j :: start <= j < start + |done| ==> lines[j] != []
    requires start + |done| == |lines| || lines[start + |done|] == []
    requires forall j :: 0 <= j < |done| ==> LineSpec(lines[start + j], strtod) == Some(done[j])
    ensures BlockSpecs(lines, start, strtod) == Some(done)
    ensures BlockEnd(lines, start) == if start + |done| < |lines| then start + |done| + 1 else start + |done|
  {
    var i := start + |done|;
    BlockLastAt(lines, start, i);
    forall j | start <= j < i
      ensures LineSpec(lines[j], strtod).Some?
    {
      assert LineSpec(lines[start + (j - start)], strtod) == Some(done[j - start]);
    }
    var specs := BlockSpecs(lines, start, strtod).value;
    forall j | 0 <= j < |done|
      ensures specs[j] == done[j]
    {
      assert Some(specs[j]) == LineSpec(lines[start + j], strtod);
    }
    assert specs == done;
  }

  /** One more line of the block read, with its transformation. */
  lemma LineSpecsSnoc(lines: seq<string>, pos: nat, done: seq<TransformSpec>, spec: TransformSpec, strtod: string -> real)
    requires pos + |done| < |lines|
    requires forall j :: pos <= j <= pos + |done| ==> lines[j] != []
    requires forall j :: 0 <= j < |done| ==> LineSpec(lines[pos + j], strtod) == Some(done[j])
    requires LineSpec(lines[pos + |done|], strtod) == Some(spec)
    ensures forall j :: 0 <= j < |done| + 1 ==> LineSpec(lines[pos + j], strtod) == Some((done + [spec])[j])
  {
    assert forall j :: 0 <= j < |done| ==> (done + [spec])[j] == done[j];
  }

  /** Lines pos .. i - 1 are non-empty and describe the transformations in done. */
  ghost predicate ReadSoFar(lines: seq<string>, pos: nat, i: nat, done: seq<TransformSpec>, strtod: string -> real)
  {
    && pos <= i <= |lines|
    && |done| == i - pos
    && (forall j :: pos <= j < i ==> lines[j] != [])
    && (forall j :: 0 <= j < |done| ==> LineSpec(lines[pos + j], strtod) == Some(done[j]))
  }

  /** One more line read: it is non-empty and describes spec. */
  lemma ReadSoFarSnoc(lines: seq<string>, pos: nat, i: nat, done: seq<TransformSpec>, spec: TransformSpec,
                      strtod: string -> real)
    requires ReadSoFar(lines, pos, i, done, strtod)
    requires i < |lines| && lines[i] != [] && LineSpec(lines[i], strtod) == Some(spec)
    ensures ReadSoFar(lines, pos, i + 1, done + [spec], strtod)
  {
    LineSpecsSnoc(lines, pos, done, spec, strtod);
  }

  /** The matrices of one more transformation: one more matrix at the end. */
  lemma SpecMatricesSnoc(specs: seq<TransformSpec>, spec: TransformSpec, m: Math)
    ensures SpecMatrices(specs + [spec], m) == SpecMatrices(specs, m) + [SpecMatrix(spec, m)]
  {
  }

  /** Where reading stands after the block: getline also consumes the empty line. */
  function BlockEnd(lines: seq<string>, start: nat): nat
    requires start <= |lines|
  {
    var k := BlockLast(lines, start);
    if k < |lines| then k + 1 else k
  }

  /**
   * The transformations of the block starting at `start`, in file order,
   * or None when a line of the block throws. It is None exactly when some
   * line of the block is rejected; otherwise entry i is line start + i.
   */
  function BlockSpecs(lines: seq<string>, start: nat, strtod: string -> real): (r: Option<seq<TransformSpec>>)
    requires start <= |lines|
    ensures r.None? <==> exists i :: start <= i < BlockLast(lines, start) && LineSpec(lines[i], strtod).None?
    ensures r.Some? ==> |r.value| == BlockLast(lines, start) - start
    ensures r.Some? ==> forall i :: 0 <= i < |r.value| ==> Some(r.value[i]) == LineSpec(lines[start + i], strtod)
    decreases |lines| - start
  {
    if start == |lines| || lines[start] == [] then Some([])
    else
      match LineSpec(lines[start], strtod)
      case None => None
      case Some(spec) =>
        match BlockSpecs(lines, start + 1, strtod)
        case None => None
        case Some(rest) =>
          var r := [spec] + rest;
          assert forall i :: 1 <= i < |r| ==> r[i] == rest[i - 1];
          Some(r)
  }

  // ---------------------------------------------------------------- writing a block back

  /** The reals the number formatter writes are read back exactly by the number parser. */
  ghost predicate Inverts(strtod: string -> real, show: real -> string)
  {
    forall x :: strtod(show(x)) == x
  }

  /** The formatter writes one non-empty token without spaces. */
  ghost predicate WritesOneToken(show: real -> string)
  {
    forall x :: show(x) != [] && ' ' !in show(x)
  }

  /** The tokens of a line that describes spec. */
  function SpecTokens(spec: TransformSpec, show: real -> string): seq<string>
  {
    match spec
    case RotationSpec(u, angle) => ["r", show(u.x), show(u.y), show(u.z), show(angle)]
    case TranslationSpec(v) => ["t", show(v.x), show(v.y), show(v.z)]
    case ScalingSpec(v) => ["s", show(v.x), show(v.y), show(v.z)]
  }

  /** The line that describes spec: its tokens with single spaces between them. */
  function FormatSpec(spec: TransformSpec, show: real -> string): string
  {
    Join(SpecTokens(spec, show), ' ')
  }

  /** A formatted line is read back as the transformation it describes. */
  lemma FormattedLineParses(spec: TransformSpec, strtod: string -> real, show: real -> string)
    requires Inverts(strtod, show) && WritesOneToken(show)
    ensures FormatSpec(spec, show) != [] && LineSpec(FormatSpec(spec, show), strtod) == Some(spec)
  {
    var toks := SpecTokens(spec, show);
    assert toks[|toks| - 1] != [];
    assert ' ' !in toks[0];
    SplitJoin(toks, ' ');
    assert FormatSpec(spec, show) == toks[0] + [' '] + Join(toks[1..], ' ');
  }

  /**
   * A block written one line per transformation and closed by an empty line
   * is read back as the same transformations, in order, and reading stops
   * just after the empty line.
   */
  lemma {:induction false} FormattedBlockParses(lines: seq<string>, start: nat, specs: seq<TransformSpec>,
                                                strtod: string -> real, show: real -> string)
    requires Inverts(strtod, show) && WritesOneToken(show)
    requires start + |specs| < |lines| && lines[start + |specs|] == []
    requires forall i :: 0 <= i < |specs| ==> lines[start + i] == FormatSpec(specs[i], show)
    ensures BlockSpecs(lines, start, strtod) == Some(specs)
    ensures BlockEnd(lines, start) == start + |specs| + 1
    decreases |specs|
  {
    if specs != [] {
      FormattedLineParses(specs[0], strtod, show);
      FormattedBlockParses(lines, start + 1, specs[1..], strtod, show);
      assert specs == [specs[0]] + specs[1..];
    }
  }

  /** A block line whose first character is not r, t or s loses the whole block. */
  lemma UnknownLineLosesBlock(lines: seq<string>, start: nat, i: nat, strtod: string -> real)
    requires start <= i < |lines| && lines[i] != []
    requires forall j :: start <= j < i ==> lines[j] != []
    requires var c := TypeChar(Split(lines[i], ' ')[0]); c != 'r' && c != 't' && c != 's'
    ensures BlockSpecs(lines, start, strtod).None?
  {
    SplitNonEmpty(lines[i], ' ');
    assert LineSpec(lines[i], strtod).None?;
    RejectedLineLosesBlock(lines, start, i, strtod);
  }
}
