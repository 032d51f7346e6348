/**
 * The `.obj` reader of the shaded renderer (hw2 parser.cpp, parse_object and
 * create_object).
 *
 * The reader loops on `ifs >> type >> n1 >> n2 >> n3` with a `string type`,
 * and stops as soon as one of the four extractions fails. "v" appends a
 * vertex (w = 1), "vn" a vertex normal, and "f" a face whose three tokens
 * have the form `i//n`: a vertex index and a normal index. Any other type
 * ends the reading. Only the vertex list starts with the sentinel.
 *
 * Each face index is read as one character minus '0': the first character
 * of the token for the vertex, the last for the normal. The reader uses
 * that reading (SingleDigitIndices), so an index of two or more digits is
 * misread; FaceToken is the intended reading of the whole decimal numbers
 * on either side of the slashes, and the two agree on single digits.
 */
module Hw2Parser {
  import opened Wrappers
  import opened Mesh
  import opened Streams
  import opened ObjWords

  /** A face: three 1-based vertex indices and three 1-based normal indices (Face(i, n)). */
  datatype ShadedFace = ShadedFace(i1: int, i2: int, i3: int, n1: int, n2: int, n3: int)

  /** What parse_object builds: vertices (sentinel first), vertex normals and faces. */
  datatype ShadedObject = ShadedObject(vertices: seq<Vertex>, normals: seq<Vertex>, faces: seq<ShadedFace>)

  const EmptyObject := ShadedObject([NullVertex], [], [])

  // ---------------------------------------------------------------- face tokens

  /** `(int) c - '0'`. */
  function Digit(c: char): int
  {
    c as int - '0' as int
  }

  predicate IsDigit(c: char)
  {
    '0' <= c <= '9'
  }

  /** The decimal value of a string of digits, read left to right. */
  function DecimalValue(s: string): int
  {
    if s == [] then 0 else 10 * DecimalValue(s[..|s| - 1]) + Digit(s[|s| - 1])
  }

  /** The decimal digits of n, without leading zeros. */
  function ShowNat(n: nat): (s: string)
    ensures s != [] && forall i :: 0 <= i < |s| ==> IsDigit(s[i])
  {
    if n < 10 then [('0' as int + n) as char]
    else ShowNat(n / 10) + [('0' as int + n % 10) as char]
  }

  /** Reading back the digits of n gives n. */
  lemma {:induction false} DecimalShow(n: nat)
    ensures DecimalValue(ShowNat(n)) == n
  {
    if n >= 10 {
      var s := ShowNat(n);
      assert s[..|s| - 1] == ShowNat(n / 10);
      DecimalShow(n / 10);
    }
  }

  /** How a face token is written: the vertex index, two slashes, the normal index. */
  function FaceWord(i: nat, n: nat): string
  {
    ShowNat(i) + "//" + ShowNat(n)
  }

  /**
   * The indices a face token holds: the number before its first '/' and the
   * number after its last '/'.
   */
  function FaceToken(tok: string): (int, int)
  {
    var parts := Split(tok, '/');
    if parts == [] then (0, 0) else (DecimalValue(parts[0]), DecimalValue(parts[|parts| - 1]))
  }

  /** A written face token reads back as the two indices it was written from. */
  lemma FaceTokenRoundTrip(i: nat, n: nat)
    ensures FaceToken(FaceWord(i, n)) == (i, n)
  {
    var items := [ShowNat(i), "", ShowNat(n)];
    assert Join(items, '/') == FaceWord(i, n) by {
      assert Join(items[1..], '/') == "" + ['/'] + ShowNat(n);
    }
    forall k | 0 <= k < |items|
      ensures '/' !in items[k]
    {
      assert forall j :: 0 <= j < |items[k]| ==> items[k][j] != '/';
    }
    SplitJoin(items, '/');
    DecimalShow(i);
    DecimalShow(n);
  }

  /**
   * The reading as written: the vertex index is the token's first character
   * minus '0', the normal index its last character minus '0'.
   */
  function SingleDigitIndices(tok: string): (int, int)
    requires tok != []
  {
    (Digit(tok[0]), Digit(tok[|tok| - 1]))
  }

  /** For single-digit indices, the reading as written is the intended one. */
  lemma SingleDigitAgrees(i: nat, n: nat)
    requires i < 10 && n < 10
    ensures SingleDigitIndices(FaceWord(i, n)) == FaceToken(FaceWord(i, n)) == (i, n)
  {
    FaceTokenRoundTrip(i, n);
  }

  /** The face token "12//12" is read as vertex 1 with normal 2 instead of vertex 12 with normal 12. */
  lemma SingleDigitMisreadsTwelve()
    ensures FaceWord(12, 12) == "12//12"
    ensures SingleDigitIndices("12//12") == (1, 2)
    ensures FaceToken("12//12") == (12, 12)
  {
    FaceTokenRoundTrip(12, 12);
  }

  // ---------------------------------------------------------------- parse_object

  /** The face of one "f" record, each index read as a single character. */
  function FaceOf(a: string, b: string, c: string): ShadedFace
    requires a != [] && b != [] && c != []
  {
    var (i1, n1) := SingleDigitIndices(a);
    var (i2, n2) := SingleDigitIndices(b);
    var (i3, n3) := SingleDigitIndices(c);
    ShadedFace(i1, i2, i3, n1, n2, n3)
  }

  /** What the reader has once it has read the stream ws, having already built obj. */
  function ShadedFrom(ws: seq<string>, p: Parsers, obj: ShadedObject): ShadedObject
    requires IsWordStream(ws)
    decreases |ws|
  {
    if |ws| < 4 then obj
    else
      SuffixIsWordStream(ws, 4);
      var v := Vertex(p.strtod(ws[1]), p.strtod(ws[2]), p.strtod(ws[3]), 1.0);
      if ws[0] == "v" then ShadedFrom(ws[4..], p, obj.(vertices := obj.vertices + [v]))
      else if ws[0] == "vn" then ShadedFrom(ws[4..], p, obj.(normals := obj.normals + [v]))
      else if ws[0] == "f" then ShadedFrom(ws[4..], p, obj.(faces := obj.faces + [FaceOf(ws[1], ws[2], ws[3])]))
      else obj
  }

  /**
   * parse_object: the object read from the whole stream, starting from a
   * vertex list that holds only the sentinel.
   */
  method ParseObject(input: seq<string>, p: Parsers) returns (obj: ShadedObject)
    requires IsWordStream(input)
    ensures obj == ShadedFrom(input, p, EmptyObject)
    ensures SentinelFirst(obj.vertices)
  {
    obj := EmptyObject;
    var ws := input;
    var t, n1, n2, n3 := "", "", "", "";
    while true
      invariant IsWordStream(ws)
      invariant ShadedFrom(ws, p, obj) == ShadedFrom(input, p, EmptyObject)
      invariant SentinelFirst(obj.vertices)
      decreases |ws|
    {
      var chain := ExtractWords(ws, [t, n1, n2, n3]);
      if !chain.0 {
        break;
      }
      t, n1, n2, n3 := chain.1[0], chain.1[1], chain.1[2], chain.1[3];
      assert t == ws[0] && n1 == ws[1] && n2 == ws[2] && n3 == ws[3];
      var v := Vertex(p.strtod(n1), p.strtod(n2), p.strtod(n3), 1.0);
      if t == "v" {
        SentinelFirstSnoc(obj.vertices, v);
        obj := obj.(vertices := obj.vertices + [v]);
      } else if t == "vn" {
        obj := obj.(normals := obj.normals + [v]);
      } else if t == "f" {
        var i := [n1[0] as int - '0' as int, n2[0] as int - '0' as int, n3[0] as int - '0' as int];
        var n := [n1[|n1| - 1] as int - '0' as int, n2[|n2| - 1] as int - '0' as int, n3[|n3| - 1] as int - '0' as int];
        obj := obj.(faces := obj.faces + [ShadedFace(i[0], i[1], i[2], n[0], n[1], n[2])]);
      } else {
        break;
      }
      SuffixIsWordStream(ws, 4);
      ws := chain.2;
    }
  }

  /**
   * create_object: parse_object on the named file, or None (the source
   * throws) when the file cannot be opened.
   */
  method CreateObject(files: map<string, seq<string>>, name: string, p: Parsers) returns (r: Option<ShadedObject>)
    requires name in files ==> IsWordStream(files[name])
    ensures r.None? <==> name !in files
    ensures r.Some? ==> r.value == ShadedFrom(files[name], p, EmptyObject) && SentinelFirst(r.value.vertices)
  {
    if name !in files {
      return None;
    }
    var obj := ParseObject(files[name], p);
    r := Some(obj);
  }

  // ---------------------------------------------------------------- what the reader keeps

  /** a is b with possibly more entries appended. */
  predicate Extends(a: ShadedObject, b: ShadedObject)
  {
    && |b.vertices| <= |a.vertices| && a.vertices[..|b.vertices|] == b.vertices
    && |b.normals| <= |a.normals| && a.normals[..|b.normals|] == b.normals
    && |b.faces| <= |a.faces| && a.faces[..|b.faces|] == b.faces
  }

  /**
   * Reading only appends: what was built stays in front, and a vertex list
   * that starts with the sentinel keeps that shape.
   */
  lemma {:induction false} ShadedFromExtends(ws: seq<string>, p: Parsers, obj: ShadedObject)
    requires IsWordStream(ws)
    ensures Extends(ShadedFrom(ws, p, obj), obj)
    ensures SentinelFirst(obj.vertices) ==> SentinelFirst(ShadedFrom(ws, p, obj).vertices)
    decreases |ws|
  {
    if |ws| >= 4 {
      var v := Vertex(p.strtod(ws[1]), p.strtod(ws[2]), p.strtod(ws[3]), 1.0);
      var next := if ws[0] == "v" then obj.(vertices := obj.vertices + [v])
                  else if ws[0] == "vn" then obj.(normals := obj.normals + [v])
                  else if ws[0] == "f" then obj.(faces := obj.faces + [FaceOf(ws[1], ws[2], ws[3])])
                  else obj;
      if ws[0] in {"v", "vn", "f"} {
        assert ShadedFrom(ws, p, obj) == ShadedFrom(ws[4..], p, next);
        ShadedFromExtends(ws[4..], p, next);
        var r := ShadedFrom(ws[4..], p, next);
        assert r.vertices[..|obj.vertices|] == r.vertices[..|next.vertices|][..|obj.vertices|];
        assert r.normals[..|obj.normals|] == r.normals[..|next.normals|][..|obj.normals|];
        assert r.faces[..|obj.faces|] == r.faces[..|next.faces|][..|obj.faces|];
        if SentinelFirst(obj.vertices) && ws[0] == "v" {
          SentinelFirstSnoc(obj.vertices, v);
        }
      }
    }
  }

  /** A record of any other type ends the reading, whatever follows it. */
  lemma OtherRecordStops(ws: seq<string>, p: Parsers, obj: ShadedObject)
    requires IsWordStream(ws) && |ws| >= 4 && ws[0] != "v" && ws[0] != "vn" && ws[0] != "f"
    ensures ShadedFrom(ws, p, obj) == obj
  {
  }

  /**
   * A written face record whose indices are single digits reads back as the
   * face it was written from (with more digits it does not: see
   * SingleDigitMisreadsTwelve).
   */
  lemma PrintedFaceReads(f: ShadedFace, rest: seq<string>, p: Parsers, obj: ShadedObject)
    requires 0 <= f.i1 < 10 && 0 <= f.i2 < 10 && 0 <= f.i3 < 10 && 0 <= f.n1 < 10 && 0 <= f.n2 < 10 && 0 <= f.n3 < 10
    requires IsWordStream(rest)
    ensures IsWordStream(["f", FaceWord(f.i1, f.n1), FaceWord(f.i2, f.n2), FaceWord(f.i3, f.n3)] + rest)
    ensures ShadedFrom(["f", FaceWord(f.i1, f.n1), FaceWord(f.i2, f.n2), FaceWord(f.i3, f.n3)] + rest, p, obj)
         == ShadedFrom(rest, p, obj.(faces := obj.faces + [f]))
  {
    var ws := ["f", FaceWord(f.i1, f.n1), FaceWord(f.i2, f.n2), FaceWord(f.i3, f.n3)] + rest;
    SingleDigitAgrees(f.i1, f.n1);
    SingleDigitAgrees(f.i2, f.n2);
    SingleDigitAgrees(f.i3, f.n3);
    assert ws[4..] == rest;
    assert IsWordStream(ws) by {
      forall k | 0 <= k < |ws| ensures ws[k] != [] {
        if k >= 4 {
          assert ws[k] == rest[k - 4];
        }
      }
    }
    assert FaceOf(ws[1], ws[2], ws[3]) == f;
  }
}
