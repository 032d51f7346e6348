/**
 * The scene program of hw0 Part3 (Part3/transform.cpp). A scene file
 * registers objects under labels with lines "label file.obj". A line that
 * holds just a label is followed by a block of transformation lines; a copy
 * of the first object registered under that label gets the block's
 * Transformation and joins the list of final objects. Each final object is
 * then printed as "label_copyK", K counting the objects with that label so
 * far, followed by its vertices as transformed.
 *
 * The Transformation is hw0's shared list (include/transform.h), so a
 * scaling line adds a translation, and compute_product empties the list.
 */
module Hw0Part3 {
  import opened Wrappers
  import opened LinAlg
  import opened Streams
  import opened Mesh
  import opened TransformLines
  import opened Hw0Transform
  import opened ObjWords
  import opened Labels

  /** An object of this program: the vertex list (sentinel first), the faces and the matrices of its Transformation. */
  datatype Hw0Object = Hw0Object(vertices: seq<Vertex>, faces: seq<Face>, transform: seq<Mat4>)

  // ---------------------------------------------------------------- create_transformation

  /**
   * create_transformation: reads the lines from `pos` up to an empty line or
   * the end of the file, adding each to a new Transformation. It is None
   * when a line throws (an unknown type, or too few numbers for its type).
   * Otherwise it holds the matrices the list received, and reading goes on
   * after the empty line.
   */
  method CreateTransformation(lines: seq<string>, pos: nat, strtod: string -> real, m: Math)
    returns (r: Option<seq<Mat4>>, next: nat)
    requires pos <= |lines|
    ensures r.None? <==> BlockSpecs(lines, pos, strtod).None?
    ensures r.Some? ==> r.value == PushedMatrices(BlockSpecs(lines, pos, strtod).value, m)
    ensures r.Some? ==> next == BlockEnd(lines, pos)
  {
    var ts := new Transformation();
    ghost var done: seq<TransformSpec> := [];
    var i := pos;
    while i < |lines| && lines[i] != []
      invariant ReadSoFar(lines, pos, i, done, strtod)
      invariant ts.ts == PushedMatrices(done, m)
      decreases |lines| - i
    {
      var added := AddLine(ts, lines[i], strtod, m);
      if !added {
        RejectedLineLosesBlock(lines, pos, i, strtod);
        return None, i + 1;
      }
      ghost var spec := LineSpec(lines[i], strtod).value;
      PushedMatricesSnoc(done, spec, m);
      ReadSoFarSnoc(lines, pos, i, done, spec, strtod);
      done := done + [spec];
      i := i + 1;
    }
    next := if i < |lines| then i + 1 else i;
    BlockRead(lines, pos, done, strtod);
    r := Some(ts.ts);
  }

  /**
   * The body of create_transformation's loop: splits one non-empty line and
   * adds its transformation to ts, or reports that the line throws.
   */
  method AddLine(ts: Transformation, line: string, strtod: string -> real, m: Math) returns (added: bool)
    requires line != []
    modifies ts
    ensures added <==> LineSpec(line, strtod).Some?
    ensures added ==> ts.ts == old(ts.ts) + [PushedMatrix(LineSpec(line, strtod).value, m)]
    ensures !added ==> ts.ts == old(ts.ts)
  {
    SplitNonEmpty(line, ' ');
    var tokens := StrSplit(line, ' ');
    var kind := TypeChar(tokens[0]);
    if kind == 'r' && |tokens| >= 5 {
      ts.AddRotation(m, Vec3(strtod(tokens[1]), strtod(tokens[2]), strtod(tokens[3])), strtod(tokens[4]));
    } else if (kind == 't' || kind == 's') && |tokens| >= 4 {
      var v := Vec3(strtod(tokens[1]), strtod(tokens[2]), strtod(tokens[3]));
      if kind == 't' {
        ts.AddTranslation(v);
      } else {
        ts.AddScaling(v);
      }
    } else {
      return false;
    }
    return true;
  }

  // ---------------------------------------------------------------- get_object

  /** The object files the scene names, each as the words it holds. */
  predicate ObjectFiles(files: map<string, seq<string>>)
  {
    forall name :: name in files ==> IsWordStream(files[name])
  }

  /**
   * The object read from the file `name`, with an empty Transformation. A
   * file that cannot be opened reads as an empty stream: just the sentinel.
   */
  function LoadedObject(files: map<string, seq<string>>, name: string, p: Parsers): Hw0Object
    requires ObjectFiles(files)
  {
    var input := if name in files then files[name] else [];
    var (vs, fs) := ObjectFrom(input, p, [NullVertex], []);
    Hw0Object(vs, fs, [])
  }

  /** get_object: opens the file and runs create_object on it. */
  method GetObject(files: map<string, seq<string>>, name: string, p: Parsers) returns (obj: Hw0Object)
    requires ObjectFiles(files)
    ensures obj == LoadedObject(files, name, p)
    ensures SentinelFirst(obj.vertices) && obj.transform == []
  {
    var input := if name in files then files[name] else [];
    var vs, fs := CreateObject(input, p);
    obj := Hw0Object(vs, fs, []);
  }

  // ---------------------------------------------------------------- main

  /**
   * What main's loop ends with, from line `pos` on, having registered
   * `untransformed` and placed `finals` so far: None when a transformation
   * block throws or names a label nothing was registered under.
   */
  function SceneFrom(lines: seq<string>, pos: nat, files: map<string, seq<string>>, p: Parsers, m: Math,
                     untransformed: seq<Labeled<Hw0Object>>, finals: seq<Labeled<Hw0Object>>)
    : Option<seq<Labeled<Hw0Object>>>
    requires pos <= |lines| && ObjectFiles(files)
    decreases |lines| - pos
  {
    if pos == |lines| then Some(finals)
    else
      var tokens := Split(lines[pos], ' ');
      if |tokens| == 2 then
        SceneFrom(lines, pos + 1, files, p, m,
                  untransformed + [Labeled(tokens[0], LoadedObject(files, tokens[1], p))], finals)
      else if |tokens| == 1 then
        match BlockSpecs(lines, pos + 1, p.strtod)
        case None => None
        case Some(specs) =>
          match FirstWithLabel(untransformed, tokens[0])
          case None => None
          case Some(k) =>
            var placed := Labeled(tokens[0], untransformed[k].obj.(transform := PushedMatrices(specs, m)));
            SceneFrom(lines, BlockEnd(lines, pos + 1), files, p, m, untransformed, finals + [placed])
      else
        SceneFrom(lines, pos + 1, files, p, m, untransformed, finals)
  }

  /**
   * main, from the opened scene file on: the final objects, in the order
   * of their label lines, or None when the program throws.
   */
  method BuildScene(lines: seq<string>, files: map<string, seq<string>>, p: Parsers, m: Math)
    returns (r: Option<seq<Labeled<Hw0Object>>>)
    requires ObjectFiles(files)
    ensures r == SceneFrom(lines, 0, files, p, m, [], [])
  {
    var untransformed: seq<Labeled<Hw0Object>> := [];
    var finals: seq<Labeled<Hw0Object>> := [];
    var pos := 0;
    while pos < |lines|
      invariant pos <= |lines|
      invariant SceneFrom(lines, pos, files, p, m, untransformed, finals) == SceneFrom(lines, 0, files, p, m, [], [])
      decreases |lines| - pos
    {
      var tokens := StrSplit(lines[pos], ' ');
      pos := pos + 1;
      if |tokens| == 2 {
        var obj := GetObject(files, tokens[1], p);
        untransformed := untransformed + [Labeled(tokens[0], obj)];
      }
      if |tokens| == 1 {
        var name := tokens[0];
        var t, next := CreateTransformation(lines, pos, p.strtod, m);
        if t.None? {
          return None;
        }
        pos := next;
        var elem := FindObjectWithLabel(untransformed, name);
        if elem.None? {
          return None;
        }
        finals := finals + [Labeled(name, elem.value.obj.(transform := t.value))];
      }
    }
    return Some(finals);
  }

  /** Every object has its vertex list as create_object builds it. */
  predicate AllSentinelFirst(objs: seq<Labeled<Hw0Object>>)
  {
    forall i :: 0 <= i < |objs| ==> SentinelFirst(objs[i].obj.vertices)
  }

  /** Reading the rest of a stream keeps a vertex list that starts as create_object's does. */
  lemma {:induction false} ObjectFromKeepsSentinel(ws: seq<string>, p: Parsers, vs: seq<Vertex>, fs: seq<Face>)
    requires IsWordStream(ws) && SentinelFirst(vs)
    ensures SentinelFirst(ObjectFrom(ws, p, vs, fs).0)
    decreases |ws|
  {
    match ExtractChar(ws)
    case None =>
    case Some(Extracted(c, after)) =>
      ObjectFromStep(ws, c, after, p, vs, fs);
      if |after| >= 3 && c == 'v' {
        var v := Vertex(p.strtod(after[0]), p.strtod(after[1]), p.strtod(after[2]), 1.0);
        SentinelFirstSnoc(vs, v);
        ObjectFromKeepsSentinel(after[3..], p, vs + [v], fs);
      } else if |after| >= 3 && c == 'f' {
        ObjectFromKeepsSentinel(after[3..], p, vs, fs + [Face(p.atoi(after[0]), p.atoi(after[1]), p.atoi(after[2]))]);
      }
  }

  /**
   * main only appends to the final objects, and every object it places has
   * its vertex list as create_object builds it, which print_transformations
   * relies on.
   */
  lemma {:induction false} SceneKeepsObjects(lines: seq<string>, pos: nat, files: map<string, seq<string>>, p: Parsers,
                                             m: Math, untransformed: seq<Labeled<Hw0Object>>,
                                             finals: seq<Labeled<Hw0Object>>)
    requires pos <= |lines| && ObjectFiles(files)
    requires AllSentinelFirst(untransformed) && AllSentinelFirst(finals)
    ensures var r := SceneFrom(lines, pos, files, p, m, untransformed, finals);
            r.Some? ==> |finals| <= |r.value| && r.value[..|finals|] == finals && AllSentinelFirst(r.value)
    decreases |lines| - pos
  {
    if pos < |lines| {
      var r := SceneFrom(lines, pos, files, p, m, untransformed, finals);
      var tokens := Split(lines[pos], ' ');
      if |tokens| == 2 {
        var name := tokens[1];
        var input := if name in files then files[name] else [];
        ObjectFromKeepsSentinel(input, p, [NullVertex], []);
        var more := untransformed + [Labeled(tokens[0], LoadedObject(files, name, p))];
        assert AllSentinelFirst(more) by {
          assert forall i :: 0 <= i < |untransformed| ==> more[i] == untransformed[i];
        }
        assert r == SceneFrom(lines, pos + 1, files, p, m, more, finals);
        SceneKeepsObjects(lines, pos + 1, files, p, m, more, finals);
      } else if |tokens| == 1 {
        var block := BlockSpecs(lines, pos + 1, p.strtod);
        var found := FirstWithLabel(untransformed, tokens[0]);
        if block.Some? && found.Some? {
          var k := found.value;
          var placed := Labeled(tokens[0], untransformed[k].obj.(transform := PushedMatrices(block.value, m)));
          var more := finals + [placed];
          assert AllSentinelFirst(more) by {
            assert forall i :: 0 <= i < |finals| ==> more[i] == finals[i];
          }
          assert r == SceneFrom(lines, BlockEnd(lines, pos + 1), files, p, m, untransformed, more);
          SceneKeepsObjects(lines, BlockEnd(lines, pos + 1), files, p, m, untransformed, more);
          if r.Some? {
            assert more[..|finals|] == finals;
            PrefixTrans(r.value, more, finals);
          }
        } else {
          assert r.None?;
        }
      } else {
        assert r == SceneFrom(lines, pos + 1, files, p, m, untransformed, finals);
        SceneKeepsObjects(lines, pos + 1, files, p, m, untransformed, finals);
      }
    }
  }

  /** A prefix of a prefix is a prefix. */
  lemma PrefixTrans<T>(a: seq<T>, b: seq<T>, c: seq<T>)
    requires |b| <= |a| && a[..|b|] == b && |c| <= |b| && b[..|c|] == c
    ensures a[..|c|] == c
  {
    assert a[..|b|][..|c|] == a[..|c|];
  }

  // ---------------------------------------------------------------- print_transformations

  /** What print_transformations prints for one object: its title "name_copyK" and its points. */
  datatype PrintedObject = PrintedObject(name: string, copy: int, points: seq<Vec3>)

  /**
   * The points printed for an object as the program is written: every
   * vertex after the sentinel, multiplied by a fresh compute_product of the
   * object's list. The first call empties the list, so only the first
   * vertex sees the product; the others are multiplied by the identity.
   */
  function AsWrittenPoints(obj: Hw0Object): (r: seq<Vec3>)
    requires SentinelFirst(obj.vertices)
    ensures |r| == |obj.vertices| - 1
  {
    var vs := obj.vertices;
    seq(|vs| - 1, k requires 0 <= k < |vs| - 1 =>
      Head(Apply(if k == 0 then ProductFirstLast(obj.transform) else Identity, ToColVector(vs[k + 1]))))
  }

  /** The points as evidently intended: every vertex after the sentinel, multiplied by the whole product. */
  function TransformedPoints(obj: Hw0Object): (r: seq<Vec3>)
    requires SentinelFirst(obj.vertices)
    ensures |r| == |obj.vertices| - 1
  {
    var vs := obj.vertices;
    seq(|vs| - 1, k requires 0 <= k < |vs| - 1 => Head(Apply(ProductFirstLast(obj.transform), ToColVector(vs[k + 1]))))
  }

  /**
   * The vertex loop of print_transformations as written: compute_product is
   * called on the object's Transformation once per vertex.
   */
  method PrintVertices(obj: Hw0Object) returns (points: seq<Vec3>)
    requires SentinelFirst(obj.vertices)
    ensures points == AsWrittenPoints(obj)
  {
    var transform := new Transformation.FromList(obj.transform);
    points := [];
    var i := 1;
    while i < |obj.vertices|
      invariant 1 <= i <= |obj.vertices|
      invariant points == AsWrittenPoints(obj)[..i - 1]
      invariant transform.ts == if i == 1 then obj.transform else []
    {
      var col := ToColVector(obj.vertices[i]);
      var product := transform.ComputeProduct();
      var final := ToVertex(Apply(product, col));
      assert AsWrittenPoints(obj)[i - 1]
          == Head(Apply(if i == 1 then ProductFirstLast(obj.transform) else Identity, ToColVector(obj.vertices[i])));
      assert product == if i == 1 then ProductFirstLast(obj.transform) else Identity;
      assert Vec3(final.x, final.y, final.z) == AsWrittenPoints(obj)[i - 1];
      assert AsWrittenPoints(obj)[..i] == AsWrittenPoints(obj)[..i - 1] + [AsWrittenPoints(obj)[i - 1]];
      points := points + [Vec3(final.x, final.y, final.z)];
      i := i + 1;
    }
  }

  /** The vertex loop with the product computed once, before it. */
  method PrintVerticesFixed(obj: Hw0Object) returns (points: seq<Vec3>)
    requires SentinelFirst(obj.vertices)
    ensures points == TransformedPoints(obj)
  {
    var transform := new Transformation.FromList(obj.transform);
    var product := transform.ComputeProduct();
    points := [];
    var i := 1;
    while i < |obj.vertices|
      invariant 1 <= i <= |obj.vertices|
      invariant points == TransformedPoints(obj)[..i - 1]
    {
      var final := ToVertex(Apply(product, ToColVector(obj.vertices[i])));
      assert TransformedPoints(obj)[i - 1] == Head(Apply(ProductFirstLast(obj.transform), ToColVector(obj.vertices[i])));
      assert product == ProductFirstLast(obj.transform);
      assert Vec3(final.x, final.y, final.z) == TransformedPoints(obj)[i - 1];
      assert TransformedPoints(obj)[..i] == TransformedPoints(obj)[..i - 1] + [TransformedPoints(obj)[i - 1]];
      points := points + [Vec3(final.x, final.y, final.z)];
      i := i + 1;
    }
  }

  /**
   * As written, the first vertex is printed transformed and every later one
   * exactly where it was; the intended output moves them all.
   */
  lemma OnlyFirstVertexMoves(obj: Hw0Object)
    requires SentinelFirst(obj.vertices)
    ensures |obj.vertices| >= 2 ==> AsWrittenPoints(obj)[0] == TransformedPoints(obj)[0]
    ensures forall k :: 1 <= k < |obj.vertices| - 1 ==>
      AsWrittenPoints(obj)[k] == Head(ToColVector(obj.vertices[k + 1]))
  {
    forall k | 1 <= k < |obj.vertices| - 1
      ensures AsWrittenPoints(obj)[k] == Head(ToColVector(obj.vertices[k + 1]))
    {
      ApplyIdentity(ToColVector(obj.vertices[k + 1]));
    }
  }

  /**
   * An object with a second vertex p and a translation by d: as written, p
   * is printed where it is; as intended, moved by d.
   */
  lemma SecondVertexNotMoved(p: Vec3, d: Vec3)
    ensures var obj := Hw0Object([NullVertex, Vertex(p.x, p.y, p.z, 1.0), Vertex(p.x, p.y, p.z, 1.0)], [], [Translation(d)]);
            AsWrittenPoints(obj)[1] == p && TransformedPoints(obj)[1] == Add3(p, d)
  {
    var v := Vertex(p.x, p.y, p.z, 1.0);
    var obj := Hw0Object([NullVertex, v, v], [], [Translation(d)]);
    OnlyFirstVertexMoves(obj);
    assert ToColVector(v) == Point(p);
    IntendedSecondVertex(obj, p, d);
  }

  lemma IntendedSecondVertex(obj: Hw0Object, p: Vec3, d: Vec3)
    requires SentinelFirst(obj.vertices) && |obj.vertices| == 3 && obj.transform == [Translation(d)]
    requires ToColVector(obj.vertices[2]) == Point(p)
    ensures TransformedPoints(obj)[1] == Add3(p, d)
  {
    var c := ToColVector(obj.vertices[2]);
    assert TransformedPoints(obj)[1] == Head(Apply(ProductFirstLast(obj.transform), c));
    ApplySingle(obj.transform, c);
    assert Apply(Translation(d), Point(p)) == Point(Add3(p, d));
  }

  /** The entry for `name` in label_map, where a missing key counts as 0. */
  function MapCount(labelMap: map<string, int>, name: string): int
  {
    if name in labelMap then labelMap[name] else 0
  }

  /** What print_transformations prints for the object at index i. */
  function PrintedAt(finals: seq<Labeled<Hw0Object>>, i: nat): PrintedObject
    requires i < |finals| && AllSentinelFirst(finals)
  {
    PrintedObject(finals[i].name, Occurrences(finals[..i + 1], finals[i].name), AsWrittenPoints(finals[i].obj))
  }

  /**
   * print_transformations: each object's title carries its label and the
   * number of objects with that label up to and including it (the map
   * `label_map`), followed by its vertices as the vertex loop prints them.
   */
  method PrintTransformations(finals: seq<Labeled<Hw0Object>>) returns (out: seq<PrintedObject>)
    requires AllSentinelFirst(finals)
    ensures |out| == |finals|
    ensures forall i :: 0 <= i < |finals| ==>
      out[i] == PrintedObject(finals[i].name, Occurrences(finals[..i + 1], finals[i].name), AsWrittenPoints(finals[i].obj))
  {
    var labelMap: map<string, int> := map[];
    out := [];
    var i := 0;
    while i < |finals|
      invariant 0 <= i <= |finals|
      invariant |out| == i
      invariant forall j :: 0 <= j < i ==> out[j] == PrintedAt(finals, j)
      invariant forall name :: MapCount(labelMap, name) == Occurrences(finals[..i], name)
    {
      var elem := finals[i];
      OccurrencesSnoc(finals, i);
      ghost var before := labelMap;
      if elem.name !in labelMap {
        labelMap := labelMap[elem.name := 1];
      } else {
        labelMap := labelMap[elem.name := labelMap[elem.name] + 1];
      }
      assert forall name :: MapCount(labelMap, name) == MapCount(before, name) + (if elem.name == name then 1 else 0);
      var points := PrintVertices(elem.obj);
      assert labelMap[elem.name] == MapCount(labelMap, elem.name) == Occurrences(finals[..i + 1], elem.name);
      out := out + [PrintedObject(elem.name, labelMap[elem.name], points)];
      i := i + 1;
    }
  }

  /** One more element counts once more for its own label and for no other. */
  lemma OccurrencesSnoc<T>(s: seq<Labeled<T>>, i: nat)
    requires i < |s|
    ensures forall name :: Occurrences(s[..i + 1], name) == Occurrences(s[..i], name) + (if s[i].name == name then 1 else 0)
  {
    assert s[..i + 1][..i] == s[..i];
  }

  /**
   * The copies of one label are numbered 1, 2, 3, … in the order they
   * appear: a later copy has a larger number, and the first has number 1.
   */
  lemma CopyNumbersIncrease(finals: seq<Labeled<Hw0Object>>, i: nat, j: nat)
    requires i < j < |finals| && finals[i].name == finals[j].name
    ensures 1 <= Occurrences(finals[..i + 1], finals[i].name) < Occurrences(finals[..j + 1], finals[j].name)
  {
    OccurrencesSnoc(finals, i);
    OccurrencesSnoc(finals, j);
    OccurrencesGrow(finals, i + 1, j, finals[i].name);
  }

  /** Counting over a longer prefix never gives less. */
  lemma {:induction false} OccurrencesGrow<T>(s: seq<Labeled<T>>, a: nat, b: nat, name: string)
    requires a <= b <= |s|
    ensures Occurrences(s[..a], name) <= Occurrences(s[..b], name)
    decreases b - a
  {
    if a < b {
      OccurrencesGrow(s, a, b - 1, name);
      OccurrencesSnoc(s, b - 1);
    }
  }
}
