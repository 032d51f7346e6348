/**
 * The wireframe renderer's readers (hw1 parser.cpp): create_object reads an
 * OBJ file's records into an Object whose vertex list starts with the
 * sentinel, and create_transformation reads a block of transformation lines
 * into a Transformation. hw2's create_transformation (hw2 parser.cpp) is the
 * same code over the same class interface.
 */
module Hw1Parser {
  import opened Wrappers
  import opened LinAlg
  import opened Streams
  import opened Mesh
  import opened ObjWords
  import opened TransformLines
  import opened Hw1Transform
  import opened Hw1Object

  /**
   * create_object: a new Object holding what the whole stream yields,
   * after the sentinel, with an empty Transformation.
   */
  method CreateObject(input: seq<string>, p: Parsers) returns (obj: Object)
    requires IsWordStream(input)
    ensures fresh(obj) && fresh(obj.transform) && obj.transform.ts == []
    ensures (obj.vertices, obj.faces) == ObjectFrom(input, p, [NullVertex], [])
    ensures SentinelFirst(obj.vertices)
  {
    obj := new Object();
    obj.AddVertex(NullVertex);
    assert obj.vertices == [NullVertex];
    var ws := input;
    var n1, n2, n3 := "", "", "";
    while true
      invariant IsWordStream(ws)
      invariant fresh(obj) && fresh(obj.transform) && obj.transform.ts == []
      invariant ObjectFrom(ws, p, obj.vertices, obj.faces) == ObjectFrom(input, p, [NullVertex], [])
      invariant SentinelFirst(obj.vertices)
      decreases |ws|
    {
      var typed := ExtractChar(ws);
      if typed.None? {
        break;
      }
      var c, after := typed.value.value, typed.value.rest;
      ObjectFromStep(ws, c, after, p, obj.vertices, obj.faces);
      var chain := ExtractWords(after, [n1, n2, n3]);
      if !chain.0 {
        break;
      }
      n1, n2, n3 := chain.1[0], chain.1[1], chain.1[2];
      assert n1 == after[0] && n2 == after[1] && n3 == after[2];
      if c == 'v' {
        var v := Vertex(p.strtod(n1), p.strtod(n2), p.strtod(n3), 1.0);
        SentinelFirstSnoc(obj.vertices, v);
        obj.AddVertex(v);
      } else if c == 'f' {
        obj.AddFace(Face(p.atoi(n1), p.atoi(n2), p.atoi(n3)));
      } else {
        break;
      }
      ws := chain.2;
    }
  }

  /**
   * get_object: create_object on the named file. A file that cannot be
   * opened reads as an empty stream, leaving just the sentinel.
   */
  method GetObject(files: map<string, seq<string>>, name: string, p: Parsers) returns (obj: Object)
    requires forall f :: f in files ==> IsWordStream(files[f])
    ensures fresh(obj) && fresh(obj.transform) && obj.transform.ts == []
    ensures name in files ==> (obj.vertices, obj.faces) == ObjectFrom(files[name], p, [NullVertex], [])
    ensures name !in files ==> obj.vertices == [NullVertex] && obj.faces == []
  {
    var input := if name in files then files[name] else [];
    obj := CreateObject(input, p);
  }

  /**
   * create_transformation: reads the lines from `pos` up to an empty line or
   * the end of the file into a new Transformation. It is None when a line
   * throws (an unknown type, or too few numbers for its type). Otherwise the
   * Transformation holds the matrix of each line in file order, scalings
   * included, and reading goes on after the empty line.
   */
  method CreateTransformation(lines: seq<string>, pos: nat, strtod: string -> real, m: Math)
    returns (r: Option<Transformation>, next: nat)
    requires pos <= |lines|
    ensures r.None? <==> BlockSpecs(lines, pos, strtod).None?
    ensures r.Some? ==> fresh(r.value) && r.value.ts == SpecMatrices(BlockSpecs(lines, pos, strtod).value, m)
    ensures r.Some? ==> next == BlockEnd(lines, pos)
  {
    var ts := new Transformation();
    ghost var done: seq<TransformSpec> := [];
    var i := pos;
    while i < |lines| && lines[i] != []
      invariant ReadSoFar(lines, pos, i, done, strtod)
      invariant ts.ts == SpecMatrices(done, m)
      decreases |lines| - i
    {
      var added := AddLine(ts, lines[i], strtod, m);
      if !added {
        RejectedLineLosesBlock(lines, pos, i, strtod);
        return None, i + 1;
      }
      ghost var spec := LineSpec(lines[i], strtod).value;
      SpecMatricesSnoc(done, spec, m);
      ReadSoFarSnoc(lines, pos, i, done, spec, strtod);
      done := done + [spec];
      i := i + 1;
    }
    next := if i < |lines| then i + 1 else i;
    BlockRead(lines, pos, done, strtod);
    r := Some(ts);
  }

  /**
   * The body of create_transformation's loop: splits one non-empty line and
   * adds the matrix of its transformation to ts, or reports that the line
   * throws.
   */
  method AddLine(ts: Transformation, line: string, strtod: string -> real, m: Math) returns (added: bool)
    requires line != []
    modifies ts
    ensures added <==> LineSpec(line, strtod).Some?
    ensures added ==> ts.ts == old(ts.ts) + [SpecMatrix(LineSpec(line, strtod).value, m)]
    ensures !added ==> ts.ts == old(ts.ts)
  {
    SplitNonEmpty(line, ' ');
    var tokens := StrSplit(line, ' ');
    var kind := TypeChar(tokens[0]);
    if kind == 'r' && |tokens| >= 5 {
      ts.AddRotation(m, Vec3(strtod(tokens[1]), strtod(tokens[2]), strtod(tokens[3])), strtod(tokens[4]));
    } else if (kind == 't' || kind == 's') && |tokens| >= 4 {
      var v := Vec3(strtod(tokens[1]), strtod(tokens[2]), strtod(tokens[3]));
      if kind == 't' {
        ts.AddTranslation(v);
      } else {
        ts.AddScaling(v);
      }
    } else {
      return false;
    }
    return true;
  }

  /**
   * A block written one line per transformation and closed by an empty line
   * gives the matrices of those transformations, so its product applies the
   * first line's transformation first.
   */
  lemma FormattedBlockMatrices(lines: seq<string>, pos: nat, specs: seq<TransformSpec>, m: Math,
                               strtod: string -> real, show: real -> string, v: Vec4)
    requires Inverts(strtod, show) && WritesOneToken(show)
    requires pos + |specs| < |lines| && lines[pos + |specs|] == []
    requires forall i :: 0 <= i < |specs| ==> lines[pos + i] == FormatSpec(specs[i], show)
    ensures BlockSpecs(lines, pos, strtod) == Some(specs)
    ensures Apply(ProductLastFirst(SpecMatrices(specs, m)), v) == ApplyInOrder(SpecMatrices(specs, m), v)
  {
    FormattedBlockParses(lines, pos, specs, strtod, show);
    ProductLastFirstAppliesInOrder(SpecMatrices(specs, m), v);
  }
}
