/**
 * The `.obj` reader of the wireframe programs (create_object in hw0
 * Part1/parse.cpp, hw0 Part3/transform.cpp and hw1 parser.cpp), and hw0's
 * print_object.
 *
 * The reader loops on `ifs >> type >> n1 >> n2 >> n3` with a `char type`.
 * It stops as soon as any of the four extractions fails. A record typed 'v'
 * appends the vertex (strtod(n1), strtod(n2), strtod(n3)) with w = 1. A
 * record typed 'f' appends the face (atoi(n1), atoi(n2), atoi(n3)). Any
 * other type ends the reading. The vertex list starts with NULL_VERTEX, so
 * the i-th vertex record is vertex i, as the 1-based face indices expect.
 */
module ObjWords {
  import opened Wrappers
  import opened Mesh
  import opened Streams

  /** The number parsers the readers call, passed in since their results are not modelled. */
  datatype Parsers = Parsers(strtod: string -> real, atoi: string -> int)

  /**
   * What the reader has once it has read the stream ws, having already
   * built vs and fs.
   */
  function ObjectFrom(ws: seq<string>, p: Parsers, vs: seq<Vertex>, fs: seq<Face>): (r: (seq<Vertex>, seq<Face>))
    requires IsWordStream(ws)
    decreases |ws|
  {
    match ExtractChar(ws)
    case None => (vs, fs)
    case Some(Extracted(c, rest)) =>
      var (ok, ns, rest2) := ExtractWords(rest, ["", "", ""]);
      if !ok then (vs, fs)
      else
        SuffixIsWordStream(rest, 3);
        if c == 'v' then
          ObjectFrom(rest2, p, vs + [Vertex(p.strtod(ns[0]), p.strtod(ns[1]), p.strtod(ns[2]), 1.0)], fs)
        else if c == 'f' then
          ObjectFrom(rest2, p, vs, fs + [Face(p.atoi(ns[0]), p.atoi(ns[1]), p.atoi(ns[2]))])
        else
          (vs, fs)
  }

  /** One record of the stream, whose type c has been read leaving `after`: what it adds, and where reading goes on. */
  lemma ObjectFromStep(ws: seq<string>, c: char, after: seq<string>, p: Parsers, vs: seq<Vertex>, fs: seq<Face>)
    requires IsWordStream(ws) && ExtractChar(ws) == Some(Extracted(c, after))
    ensures |after| < 3 || (c != 'v' && c != 'f') ==> ObjectFrom(ws, p, vs, fs) == (vs, fs)
    ensures |after| >= 3 ==> IsWordStream(after[3..]) && |after[3..]| < |ws|
    ensures |after| >= 3 && c == 'v' ==>
      ObjectFrom(ws, p, vs, fs)
      == ObjectFrom(after[3..], p, vs + [Vertex(p.strtod(after[0]), p.strtod(after[1]), p.strtod(after[2]), 1.0)], fs)
    ensures |after| >= 3 && c == 'f' ==>
      ObjectFrom(ws, p, vs, fs)
      == ObjectFrom(after[3..], p, vs, fs + [Face(p.atoi(after[0]), p.atoi(after[1]), p.atoi(after[2]))])
  {
    if |after| >= 3 {
      SuffixIsWordStream(after, 3);
    }
  }

  /**
   * create_object: the object read from the whole stream, starting from a
   * vertex list that holds only NULL_VERTEX.
   */
  method CreateObject(input: seq<string>, p: Parsers) returns (vs: seq<Vertex>, fs: seq<Face>)
    requires IsWordStream(input)
    ensures (vs, fs) == ObjectFrom(input, p, [NullVertex], [])
    ensures SentinelFirst(vs)
  {
    vs := [NullVertex];
    fs := [];
    var ws := input;
    var n1, n2, n3 := "", "", "";
    while true
      invariant IsWordStream(ws)
      invariant ObjectFrom(ws, p, vs, fs) == ObjectFrom(input, p, [NullVertex], [])
      invariant SentinelFirst(vs)
      decreases |ws|
    {
      var typed := ExtractChar(ws);
      if typed.None? {
        break;
      }
      var c, after := typed.value.value, typed.value.rest;
      ObjectFromStep(ws, c, after, p, vs, fs);
      var chain := ExtractWords(after, [n1, n2, n3]);
      if !chain.0 {
        break;
      }
      n1, n2, n3 := chain.1[0], chain.1[1], chain.1[2];
      assert n1 == after[0] && n2 == after[1] && n3 == after[2];
      if c == 'v' {
        var v := Vertex(p.strtod(n1), p.strtod(n2), p.strtod(n3), 1.0);
        SentinelFirstSnoc(vs, v);
        vs := vs + [v];
      } else if c == 'f' {
        fs := fs + [Face(p.atoi(n1), p.atoi(n2), p.atoi(n3))];
      } else {
        break;
      }
      ws := chain.2;
    }
  }

  // ---------------------------------------------------------------- print_object and reading it back

  /** The number formatters print_object uses (`%f` and `%d`), passed in. */
  datatype Printers = Printers(showReal: real -> string, showInt: int -> string)

  /** x is printed as one token that strtod reads back as x. */
  predicate RealReadsBack(p: Parsers, q: Printers, x: real)
  {
    q.showReal(x) != [] && p.strtod(q.showReal(x)) == x
  }

  /** i is printed as one token that atoi reads back as i. */
  predicate IntReadsBack(p: Parsers, q: Printers, i: int)
  {
    q.showInt(i) != [] && p.atoi(q.showInt(i)) == i
  }

  /** The formatters print single tokens, and the readers read back exactly what they print. */
  ghost predicate RoundTrips(p: Parsers, q: Printers)
  {
    (forall x :: RealReadsBack(p, q, x)) && (forall i :: IntReadsBack(p, q, i))
  }

  /**
   * Every vertex is a real vertex with w = 1, as the reader builds them,
   * and its coordinates are printed as tokens that read back exactly.
   */
  predicate VerticesReadBack(vl: seq<Vertex>, p: Parsers, q: Printers)
  {
    forall i :: 0 <= i < |vl| ==> VertexReadsBack(vl[i], p, q)
  }

  predicate VertexReadsBack(v: Vertex, p: Parsers, q: Printers)
  {
    v.Vertex? && v.w == 1.0 && RealReadsBack(p, q, v.x) && RealReadsBack(p, q, v.y) && RealReadsBack(p, q, v.z)
  }

  /** The indices of every face are printed as tokens that read back exactly. */
  predicate FacesReadBack(fl: seq<Face>, p: Parsers, q: Printers)
  {
    forall i :: 0 <= i < |fl| ==> FaceReadsBack(fl[i], p, q)
  }

  predicate FaceReadsBack(f: Face, p: Parsers, q: Printers)
  {
    IntReadsBack(p, q, f.i1) && IntReadsBack(p, q, f.i2) && IntReadsBack(p, q, f.i3)
  }

  /** The words of the lines `v x y z`, one line per vertex. */
  function VertexWords(vs: seq<Vertex>, q: Printers): (ws: seq<string>)
    requires forall i :: 0 <= i < |vs| ==> vs[i].Vertex?
    ensures |ws| == 4 * |vs|
  {
    if vs == [] then []
    else
      var v := vs[0];
      ["v", q.showReal(v.x), q.showReal(v.y), q.showReal(v.z)] + VertexWords(vs[1..], q)
  }

  /** The words of the lines `f i1 i2 i3`, one line per face. */
  function FaceWords(fs: seq<Face>, q: Printers): (ws: seq<string>)
    ensures |ws| == 4 * |fs|
  {
    if fs == [] then []
    else
      var f := fs[0];
      ["f", q.showInt(f.i1), q.showInt(f.i2), q.showInt(f.i3)] + FaceWords(fs[1..], q)
  }

  /** The vertex lines from index i on: line i, then the rest. */
  lemma VertexWordsFrom(vs: seq<Vertex>, i: nat, q: Printers)
    requires SentinelFirst(vs) && 1 <= i < |vs|
    ensures VertexWords(vs[i..], q)
         == ["v", q.showReal(vs[i].x), q.showReal(vs[i].y), q.showReal(vs[i].z)] + VertexWords(vs[i + 1..], q)
  {
    assert vs[i..][1..] == vs[i + 1..];
  }

  /** The face lines from index j on: line j, then the rest. */
  lemma FaceWordsFrom(fs: seq<Face>, j: nat, q: Printers)
    requires j < |fs|
    ensures FaceWords(fs[j..], q)
         == ["f", q.showInt(fs[j].i1), q.showInt(fs[j].i2), q.showInt(fs[j].i3)] + FaceWords(fs[j + 1..], q)
  {
    assert fs[j..][1..] == fs[j + 1..];
  }

  /**
   * print_object: every vertex from index 1 on (the sentinel is skipped),
   * then every face, in insertion order; as the words of the printed lines.
   */
  method PrintObject(vs: seq<Vertex>, fs: seq<Face>, q: Printers) returns (out: seq<string>)
    requires SentinelFirst(vs)
    ensures out == VertexWords(vs[1..], q) + FaceWords(fs, q)
  {
    out := [];
    var i := 1;
    while i < |vs|
      invariant 1 <= i <= |vs|
      invariant out + VertexWords(vs[i..], q) == VertexWords(vs[1..], q)
    {
      var v := vs[i];
      VertexWordsFrom(vs, i, q);
      out := out + ["v", q.showReal(v.x), q.showReal(v.y), q.showReal(v.z)];
      i := i + 1;
    }
    assert vs[i..] == [];
    var j := 0;
    while j < |fs|
      invariant 0 <= j <= |fs|
      invariant out + FaceWords(fs[j..], q) == VertexWords(vs[1..], q) + FaceWords(fs, q)
    {
      var f := fs[j];
      FaceWordsFrom(fs, j, q);
      out := out + ["f", q.showInt(f.i1), q.showInt(f.i2), q.showInt(f.i3)];
      j := j + 1;
    }
    assert fs[j..] == [];
  }

  /** One vertex record: the stream after it, and the vertex appended. */
  lemma ReadVertexRecord(a: string, b: string, c: string, rest: seq<string>, p: Parsers, vs: seq<Vertex>, fs: seq<Face>)
    requires a != [] && b != [] && c != [] && IsWordStream(rest)
    ensures IsWordStream(["v", a, b, c] + rest)
    ensures ObjectFrom(["v", a, b, c] + rest, p, vs, fs)
         == ObjectFrom(rest, p, vs + [Vertex(p.strtod(a), p.strtod(b), p.strtod(c), 1.0)], fs)
  {
    var ws := ["v", a, b, c] + rest;
    assert ExtractChar(ws) == Some(Extracted('v', ws[1..]));
    assert ws[1..][3..] == rest;
  }

  /** One face record: the stream after it, and the face appended. */
  lemma ReadFaceRecord(a: string, b: string, c: string, rest: seq<string>, p: Parsers, vs: seq<Vertex>, fs: seq<Face>)
    requires a != [] && b != [] && c != [] && IsWordStream(rest)
    ensures IsWordStream(["f", a, b, c] + rest)
    ensures ObjectFrom(["f", a, b, c] + rest, p, vs, fs)
         == ObjectFrom(rest, p, vs, fs + [Face(p.atoi(a), p.atoi(b), p.atoi(c))])
  {
    var ws := ["f", a, b, c] + rest;
    assert ExtractChar(ws) == Some(Extracted('f', ws[1..]));
    assert ws[1..][3..] == rest;
  }

  /** The printed line of one vertex reads back as that vertex. */
  lemma PrintedVertexReads(v: Vertex, rest: seq<string>, p: Parsers, q: Printers, vs: seq<Vertex>, fs: seq<Face>)
    requires VertexReadsBack(v, p, q) && IsWordStream(rest)
    ensures IsWordStream(["v", q.showReal(v.x), q.showReal(v.y), q.showReal(v.z)] + rest)
    ensures ObjectFrom(["v", q.showReal(v.x), q.showReal(v.y), q.showReal(v.z)] + rest, p, vs, fs)
         == ObjectFrom(rest, p, vs + [v], fs)
  {
    var x, y, z := q.showReal(v.x), q.showReal(v.y), q.showReal(v.z);
    ReadVertexRecord(x, y, z, rest, p, vs, fs);
  }

  /** The printed line of one face reads back as that face. */
  lemma PrintedFaceReads(f: Face, rest: seq<string>, p: Parsers, q: Printers, vs: seq<Vertex>, fs: seq<Face>)
    requires FaceReadsBack(f, p, q) && IsWordStream(rest)
    ensures IsWordStream(["f", q.showInt(f.i1), q.showInt(f.i2), q.showInt(f.i3)] + rest)
    ensures ObjectFrom(["f", q.showInt(f.i1), q.showInt(f.i2), q.showInt(f.i3)] + rest, p, vs, fs)
         == ObjectFrom(rest, p, vs, fs + [f])
  {
    var a, b, c := q.showInt(f.i1), q.showInt(f.i2), q.showInt(f.i3);
    ReadFaceRecord(a, b, c, rest, p, vs, fs);
  }

  /** Reading the vertex lines appends exactly those vertices. */
  lemma {:induction false} VertexWordsRead(vl: seq<Vertex>, tail: seq<string>, p: Parsers, q: Printers,
                                           vs: seq<Vertex>, fs: seq<Face>)
    requires VerticesReadBack(vl, p, q) && IsWordStream(tail)
    ensures IsWordStream(VertexWords(vl, q) + tail)
    ensures ObjectFrom(VertexWords(vl, q) + tail, p, vs, fs) == ObjectFrom(tail, p, vs + vl, fs)
  {
    if vl == [] {
      assert vs + vl == vs;
      assert VertexWords(vl, q) + tail == tail;
    } else {
      var v := vl[0];
      assert vs + [v] + vl[1..] == vs + vl by { assert vl == [v] + vl[1..]; }
      assert VertexReadsBack(v, p, q) && VerticesReadBack(vl[1..], p, q);
      VertexWordsRead(vl[1..], tail, p, q, vs + [v], fs);
      FirstVertexRead(vl, tail, p, q, vs, fs);
    }
  }

  /** Reading the first vertex line of a non-empty list. */
  lemma FirstVertexRead(vl: seq<Vertex>, tail: seq<string>, p: Parsers, q: Printers, vs: seq<Vertex>, fs: seq<Face>)
    requires vl != [] && VerticesReadBack(vl, p, q) && IsWordStream(VertexWords(vl[1..], q) + tail)
    ensures IsWordStream(VertexWords(vl, q) + tail)
    ensures ObjectFrom(VertexWords(vl, q) + tail, p, vs, fs) == ObjectFrom(VertexWords(vl[1..], q) + tail, p, vs + [vl[0]], fs)
  {
    var v := vl[0];
    assert VertexReadsBack(v, p, q);
    var rest := VertexWords(vl[1..], q) + tail;
    assert VertexWords(vl, q) + tail == ["v", q.showReal(v.x), q.showReal(v.y), q.showReal(v.z)] + rest;
    PrintedVertexReads(v, rest, p, q, vs, fs);
  }

  /** Reading the face lines appends exactly those faces. */
  lemma {:induction false} FaceWordsRead(fl: seq<Face>, tail: seq<string>, p: Parsers, q: Printers,
                                         vs: seq<Vertex>, fs: seq<Face>)
    requires FacesReadBack(fl, p, q) && IsWordStream(tail)
    ensures IsWordStream(FaceWords(fl, q) + tail)
    ensures ObjectFrom(FaceWords(fl, q) + tail, p, vs, fs) == ObjectFrom(tail, p, vs, fs + fl)
  {
    if fl == [] {
      assert fs + fl == fs;
      assert FaceWords(fl, q) + tail == tail;
    } else {
      var f := fl[0];
      assert fs + [f] + fl[1..] == fs + fl by { assert fl == [f] + fl[1..]; }
      assert FaceReadsBack(f, p, q) && FacesReadBack(fl[1..], p, q);
      FaceWordsRead(fl[1..], tail, p, q, vs, fs + [f]);
      FirstFaceRead(fl, tail, p, q, vs, fs);
    }
  }

  /** Reading the first face line of a non-empty list. */
  lemma FirstFaceRead(fl: seq<Face>, tail: seq<string>, p: Parsers, q: Printers, vs: seq<Vertex>, fs: seq<Face>)
    requires fl != [] && FaceReadsBack(fl[0], p, q) && IsWordStream(FaceWords(fl[1..], q) + tail)
    ensures IsWordStream(FaceWords(fl, q) + tail)
    ensures ObjectFrom(FaceWords(fl, q) + tail, p, vs, fs) == ObjectFrom(FaceWords(fl[1..], q) + tail, p, vs, fs + [fl[0]])
  {
    var f := fl[0];
    var rest := FaceWords(fl[1..], q) + tail;
    assert FaceWords(fl, q) + tail == ["f", q.showInt(f.i1), q.showInt(f.i2), q.showInt(f.i3)] + rest;
    PrintedFaceReads(f, rest, p, q, vs, fs);
  }

  /** A stream that is empty or whose next record is typed neither 'v' nor 'f' adds nothing. */
  lemma OtherRecordStops(ws: seq<string>, p: Parsers, vs: seq<Vertex>, fs: seq<Face>)
    requires IsWordStream(ws) && (ws == [] || (ws[0][0] != 'v' && ws[0][0] != 'f'))
    ensures ObjectFrom(ws, p, vs, fs) == (vs, fs)
  {
  }

  /** Under a round-tripping formatter, every value of a readable object reads back. */
  lemma RoundTripsReadBack(vl: seq<Vertex>, fl: seq<Face>, p: Parsers, q: Printers)
    requires RoundTrips(p, q)
    requires forall i :: 0 <= i < |vl| ==> vl[i].Vertex? && vl[i].w == 1.0
    ensures VerticesReadBack(vl, p, q) && FacesReadBack(fl, p, q)
  {
    forall i | 0 <= i < |vl|
      ensures VertexReadsBack(vl[i], p, q)
    {
      assert RealReadsBack(p, q, vl[i].x) && RealReadsBack(p, q, vl[i].y) && RealReadsBack(p, q, vl[i].z);
    }
    forall i | 0 <= i < |fl|
      ensures FaceReadsBack(fl[i], p, q)
    {
      assert IntReadsBack(p, q, fl[i].i1) && IntReadsBack(p, q, fl[i].i2) && IntReadsBack(p, q, fl[i].i3);
    }
  }

  /**
   * Reading back what print_object printed gives the object again. Any
   * further text is ignored, provided it starts with a record whose type
   * is neither 'v' nor 'f': that record ends the reading.
   */
  lemma PrintedObjectReadsBack(vs: seq<Vertex>, fs: seq<Face>, tail: seq<string>, p: Parsers, q: Printers)
    requires |vs| >= 1 && vs[0] == NullVertex
    requires VerticesReadBack(vs[1..], p, q) && FacesReadBack(fs, p, q)
    requires IsWordStream(tail) && (tail == [] || (tail[0][0] != 'v' && tail[0][0] != 'f'))
    ensures IsWordStream(VertexWords(vs[1..], q) + FaceWords(fs, q) + tail)
    ensures ObjectFrom(VertexWords(vs[1..], q) + FaceWords(fs, q) + tail, p, [NullVertex], []) == (vs, fs)
  {
    var vw := VertexWords(vs[1..], q);
    var fw := FaceWords(fs, q);
    assert vw + fw + tail == vw + (fw + tail);
    assert [NullVertex] + vs[1..] == vs;
    assert [] + fs == fs;
    OtherRecordStops(tail, p, vs, fs);
    FaceWordsRead(fs, tail, p, q, vs, []);
    VertexWordsRead(vs[1..], fw + tail, p, q, [NullVertex], []);
  }

  /** The same, for formatters that read back every value. */
  lemma PrintedObjectReadsBackExactly(vs: seq<Vertex>, fs: seq<Face>, p: Parsers, q: Printers)
    requires RoundTrips(p, q) && SentinelFirst(vs)
    requires forall i :: 1 <= i < |vs| ==> vs[i].w == 1.0
    ensures IsWordStream(VertexWords(vs[1..], q) + FaceWords(fs, q))
    ensures ObjectFrom(VertexWords(vs[1..], q) + FaceWords(fs, q), p, [NullVertex], []) == (vs, fs)
  {
    RoundTripsReadBack(vs[1..], fs, p, q);
    PrintedObjectReadsBack(vs, fs, [], p, q);
    assert VertexWords(vs[1..], q) + FaceWords(fs, q) + [] == VertexWords(vs[1..], q) + FaceWords(fs, q);
  }
}
