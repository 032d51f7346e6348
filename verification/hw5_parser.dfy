/**
 * The readers of the smoothing program (hw5 parser.cpp): parse_object and
 * create_object for the `.obj` file, and create_transformation, which fills
 * a Transform_Set. Its create_lights, create_material and create_scene are
 * the shared scene-file readers of SceneBlocks.
 *
 * parse_object loops on `ifs >> type >> n1 >> n2 >> n3` with a `string type`
 * and stops as soon as an extraction fails. "v" appends the vertex
 * (strtof(n1), strtof(n2), strtof(n3)), "f" the face (atoi(n1), atoi(n2),
 * atoi(n3)); any other type, "vn" included, ends the reading.
 */
module Hw5Parser {
  import opened Wrappers
  import opened LinAlg
  import opened Streams
  import Mesh
  import opened ObjWords
  import opened TransformLines
  import opened Hw3Transform
  import opened Hw5Object
  import Hw2Parser

  // ---------------------------------------------------------------- parse_object

  /** The vertex list as parse_object builds it: the sentinel first, real vertices after. */
  predicate SentinelFirst(vs: seq<Vertex>)
  {
    |vs| >= 1 && vs[0] == NullVertex && forall i :: 1 <= i < |vs| ==> vs[i].Vertex?
  }

  /** What the reader has once it has read the stream ws, having already built vs and fs. */
  function PlainFrom(ws: seq<string>, p: Parsers, vs: seq<Vertex>, fs: seq<Mesh.Face>): (seq<Vertex>, seq<Mesh.Face>)
    decreases |ws|
  {
    if |ws| < 4 then (vs, fs)
    else if ws[0] == "v" then
      PlainFrom(ws[4..], p, vs + [Vertex(p.strtod(ws[1]), p.strtod(ws[2]), p.strtod(ws[3]))], fs)
    else if ws[0] == "f" then
      PlainFrom(ws[4..], p, vs, fs + [Mesh.Face(p.atoi(ws[1]), p.atoi(ws[2]), p.atoi(ws[3]))])
    else (vs, fs)
  }

  /**
   * parse_object: a new Object whose vertex and face lists are what the
   * whole stream yields after the sentinel; buffers, transformations and
   * material are as the default constructor leaves them.
   */
  method ParseObject(input: seq<string>, p: Parsers) returns (obj: Object)
    ensures fresh(obj)
    ensures (obj.vertices, obj.faces) == PlainFrom(input, p, [NullVertex], [])
    ensures SentinelFirst(obj.vertices)
    ensures obj.vertexBuffer == [] && obj.normalBuffer == [] && obj.transforms == [] && obj.material.shininess == 0.0
  {
    obj := new Object();
    obj.Add(NullVertex);
    assert obj.vertices == [NullVertex];
    var ws := input;
    var t, n1, n2, n3 := "", "", "", "";
    while true
      invariant fresh(obj)
      invariant PlainFrom(ws, p, obj.vertices, obj.faces) == PlainFrom(input, p, [NullVertex], [])
      invariant SentinelFirst(obj.vertices)
      invariant obj.vertexBuffer == [] && obj.normalBuffer == [] && obj.transforms == [] && obj.material.shininess == 0.0
      decreases |ws|
    {
      var chain := ExtractWords(ws, [t, n1, n2, n3]);
      if !chain.0 {
        break;
      }
      t, n1, n2, n3 := chain.1[0], chain.1[1], chain.1[2], chain.1[3];
      assert t == ws[0] && n1 == ws[1] && n2 == ws[2] && n3 == ws[3];
      if t == "v" {
        var v := Vertex(p.strtod(n1), p.strtod(n2), p.strtod(n3));
        assert forall i :: 1 <= i < |obj.vertices| ==> (obj.vertices + [v])[i] == obj.vertices[i];
        obj.Add(v);
      } else if t == "f" {
        obj.AddFace(Mesh.Face(p.atoi(n1), p.atoi(n2), p.atoi(n3)));
      } else {
        break;
      }
      ws := chain.2;
    }
  }

  /**
   * create_object: parse_object on the named file, or None (the source
   * throws) when the file cannot be opened.
   */
  method CreateObject(files: map<string, seq<string>>, name: string, p: Parsers) returns (r: Option<Object>)
    ensures r.None? <==> name !in files
    ensures r.Some? ==> fresh(r.value) && (r.value.vertices, r.value.faces) == PlainFrom(files[name], p, [NullVertex], [])
  {
    if name !in files {
      return None;
    }
    var obj := ParseObject(files[name], p);
    r := Some(obj);
  }

  /**
   * Face indices go through atoi: with an atoi that reads decimal numbers,
   * a face of any indices, multi-digit ones included, reads back as itself.
   */
  lemma PrintedFaceReads(i: nat, j: nat, k: nat, rest: seq<string>, p: Parsers, vs: seq<Vertex>, fs: seq<Mesh.Face>)
    requires p.atoi(Hw2Parser.ShowNat(i)) == i && p.atoi(Hw2Parser.ShowNat(j)) == j && p.atoi(Hw2Parser.ShowNat(k)) == k
    ensures PlainFrom(["f", Hw2Parser.ShowNat(i), Hw2Parser.ShowNat(j), Hw2Parser.ShowNat(k)] + rest, p, vs, fs)
         == PlainFrom(rest, p, vs, fs + [Mesh.Face(i, j, k)])
  {
    var ws := ["f", Hw2Parser.ShowNat(i), Hw2Parser.ShowNat(j), Hw2Parser.ShowNat(k)] + rest;
    assert ws[4..] == rest;
  }

  /** A record of any other type, "vn" included, ends the reading. */
  lemma OtherRecordStops(ws: seq<string>, p: Parsers, vs: seq<Vertex>, fs: seq<Mesh.Face>)
    requires |ws| >= 4 && ws[0] != "v" && ws[0] != "f"
    ensures PlainFrom(ws, p, vs, fs) == (vs, fs)
  {
  }

  // ---------------------------------------------------------------- create_transformation

  /** The records a block of transformation lines adds, in file order. */
  function SpecTransforms(specs: seq<TransformSpec>): (r: seq<Transform>)
    ensures |r| == |specs|
    ensures forall i :: 0 <= i < |specs| ==> r[i] == FromSpec(specs[i]) && AsSpec(r[i]) == specs[i]
  {
    seq(|specs|, i requires 0 <= i < |specs| => FromSpec(specs[i]))
  }

  /**
   * create_transformation: reads the lines from `pos` up to an empty line or
   * the end of the file into a new Transform_Set. It is None when a line
   * throws (an unknown type, or too few numbers). Otherwise the set holds one
   * record per line, in file order, each describing its line, and reading
   * goes on after the empty line.
   */
  method CreateTransformation(lines: seq<string>, pos: nat, strtod: string -> real)
    returns (r: Option<TransformSet>, next: nat)
    requires pos <= |lines|
    ensures r.None? <==> BlockSpecs(lines, pos, strtod).None?
    ensures r.Some? ==> fresh(r.value) && r.value.Valid()
    ensures r.Some? ==> r.value.transforms == SpecTransforms(BlockSpecs(lines, pos, strtod).value)
    ensures r.Some? ==> next == BlockEnd(lines, pos)
  {
    var ts := new TransformSet();
    ghost var done: seq<TransformSpec> := [];
    var i := pos;
    while i < |lines| && lines[i] != []
      invariant ReadSoFar(lines, pos, i, done, strtod)
      invariant ts.transforms == SpecTransforms(done) && ts.Valid()
      decreases |lines| - i
    {
      var added := AddLine(ts, lines[i], strtod);
      if !added {
        RejectedLineLosesBlock(lines, pos, i, strtod);
        return None, i + 1;
      }
      ghost var spec := LineSpec(lines[i], strtod).value;
      assert SpecTransforms(done + [spec]) == SpecTransforms(done) + [FromSpec(spec)];
      ReadSoFarSnoc(lines, pos, i, done, spec, strtod);
      done := done + [spec];
      i := i + 1;
    }
    next := if i < |lines| then i + 1 else i;
    BlockRead(lines, pos, done, strtod);
    r := Some(ts);
  }

  /**
   * The body of create_transformation's loop: splits one non-empty line and
   * adds the record it describes to ts, or reports that the line throws.
   */
  method AddLine(ts: TransformSet, line: string, strtod: string -> real) returns (added: bool)
    requires line != [] && ts.Valid()
    modifies ts
    ensures ts.Valid()
    ensures added <==> LineSpec(line, strtod).Some?
    ensures added ==> ts.transforms == old(ts.transforms) + [FromSpec(LineSpec(line, strtod).value)]
    ensures !added ==> ts.transforms == old(ts.transforms)
  {
    SplitNonEmpty(line, ' ');
    var tokens := StrSplit(line, ' ');
    var kind := TypeChar(tokens[0]);
    if kind == 'r' && |tokens| >= 5 {
      ts.AddRotation(strtod(tokens[1]), strtod(tokens[2]), strtod(tokens[3]), strtod(tokens[4]));
    } else if (kind == 't' || kind == 's') && |tokens| >= 4 {
      if kind == 't' {
        ts.AddTranslation(strtod(tokens[1]), strtod(tokens[2]), strtod(tokens[3]));
      } else {
        ts.AddScaling(strtod(tokens[1]), strtod(tokens[2]), strtod(tokens[3]));
      }
    } else {
      return false;
    }
    return true;
  }

  /**
   * A set printed with print_transform_set and read back with
   * create_transformation (closed by an empty line) holds the same records.
   */
  lemma PrintedSetReadsBack(lines: seq<string>, pos: nat, ts: seq<Transform>, strtod: string -> real, show: real -> string)
    requires Inverts(strtod, show) && WritesOneToken(show)
    requires forall i :: 0 <= i < |ts| ==> WellFormed(ts[i])
    requires pos + |ts| < |lines| && lines[pos + |ts|] == []
    requires forall i :: 0 <= i < |ts| ==> lines[pos + i] == PrintTransformation(ts[i], show)
    ensures BlockSpecs(lines, pos, strtod).Some? && SpecTransforms(BlockSpecs(lines, pos, strtod).value) == ts
  {
    var specs := seq(|ts|, i requires 0 <= i < |ts| => AsSpec(ts[i]));
    forall i | 0 <= i < |ts|
      ensures lines[pos + i] != [] && LineSpec(lines[pos + i], strtod) == Some(specs[i])
    {
      PrintedTransformReads(ts[i], strtod, show);
    }
    forall j | pos <= j < pos + |specs|
      ensures lines[j] != []
    {
      PrintedTransformReads(ts[j - pos], strtod, show);
    }
    BlockRead(lines, pos, specs, strtod);
    forall i | 0 <= i < |ts|
      ensures SpecTransforms(specs)[i] == ts[i]
    {
      SpecCorrespondence(ts[i], specs[i]);
    }
  }
}
