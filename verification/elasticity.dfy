/**
 * The 2D elastic mesh demo of hw6 (Part1/Elasticity): its string splitter,
 * the OBJ reader that builds vertices, triangles and rest matrices, and the
 * bookkeeping of each displayed frame (force reset, force distribution,
 * the explicit Euler step that leaves the dragged vertex alone, the energy
 * totals and the clock), plus the mouse picking and dragging.
 */
module Elasticity {
  import opened Wrappers
  import opened Streams
  import ObjWords
  import opened EnergyTotals

  // ---------------------------------------------------------------- split (utils.h)

  /** The items that are not empty, in order. */
  function NonEmpty(items: seq<string>): (r: seq<string>)
    ensures |r| <= |items|
  {
    if items == [] then [] else (if items[0] == [] then [] else [items[0]]) + NonEmpty(items[1..])
  }

  /** The tokens split(str, delim) keeps: the non-empty getline items. */
  function Tokens(s: string, delim: char): seq<string>
  {
    NonEmpty(Split(s, delim))
  }

  /** The strings one after another. */
  function Concat(items: seq<string>): string
  {
    if items == [] then [] else items[0] + Concat(items[1..])
  }

  /** s with every occurrence of delim taken out. */
  function RemoveDelim(s: string, delim: char): string
  {
    if s == [] then [] else (if s[0] == delim then [] else [s[0]]) + RemoveDelim(s[1..], delim)
  }

  lemma NonEmptyCons(a: string, rest: seq<string>)
    ensures NonEmpty([a] + rest) == (if a == [] then [] else [a]) + NonEmpty(rest)
  {
    assert ([a] + rest)[1..] == rest;
  }

  lemma {:induction false} NonEmptyKeepsNoDelim(items: seq<string>, delim: char)
    requires forall i :: 0 <= i < |items| ==> delim !in items[i]
    ensures forall i :: 0 <= i < |NonEmpty(items)| ==> NonEmpty(items)[i] != [] && delim !in NonEmpty(items)[i]
  {
    if items != [] {
      NonEmptyKeepsNoDelim(items[1..], delim);
      NonEmptyCons(items[0], items[1..]);
      assert items == [items[0]] + items[1..];
    }
  }

  /** No token is empty and no token holds the delimiter. */
  lemma TokensAreWords(s: string, delim: char)
    ensures forall i :: 0 <= i < |Tokens(s, delim)| ==> Tokens(s, delim)[i] != [] && delim !in Tokens(s, delim)[i]
  {
    SplitItemsHaveNoDelim(s, delim);
    NonEmptyKeepsNoDelim(Split(s, delim), delim);
  }

  lemma {:induction false} RemoveDelimAppend(a: string, b: string, delim: char)
    ensures RemoveDelim(a + b, delim) == RemoveDelim(a, delim) + RemoveDelim(b, delim)
  {
    if a == [] {
      assert a + b == b;
    } else {
      assert (a + b)[1..] == a[1..] + b;
      RemoveDelimAppend(a[1..], b, delim);
    }
  }

  lemma {:induction false} RemoveDelimAbsent(a: string, delim: char)
    requires forall j :: 0 <= j < |a| ==> a[j] != delim
    ensures RemoveDelim(a, delim) == a
  {
    if a != [] {
      RemoveDelimAbsent(a[1..], delim);
      assert a == [a[0]] + a[1..];
    }
  }

  lemma ConcatCons(a: string, rest: seq<string>)
    ensures Concat([a] + rest) == a + Concat(rest)
  {
    assert ([a] + rest)[1..] == rest;
  }

  /** Tokens of a string with a delimiter at k: the part before it (unless empty), then the tokens after it. */
  lemma TokensAt(s: string, delim: char)
    requires s != [] && NextDelim(s, 0, delim) < |s|
    ensures var k := NextDelim(s, 0, delim);
            Tokens(s, delim) == (if k == 0 then [] else [s[..k]]) + Tokens(s[k + 1..], delim)
  {
    var k := NextDelim(s, 0, delim);
    TokensFrom(s, 0, delim, s[..k], k + 1);
    assert s[0..] == s;
  }

  /** A string with no delimiter is its own single token. */
  lemma TokensWhole(s: string, delim: char)
    requires s != [] && NextDelim(s, 0, delim) == |s|
    ensures Tokens(s, delim) == [s]
    ensures Concat(Tokens(s, delim)) == RemoveDelim(s, delim)
  {
    assert Split(s, delim) == [s];
    NonEmptyCons(s, []);
    ConcatCons(s, []);
    assert forall j :: 0 <= j < |s| ==> s[j] != delim;
    RemoveDelimAbsent(s, delim);
  }

  /** Removing delimiters around the first one. */
  lemma RemoveDelimAt(s: string, k: int, delim: char)
    requires 0 <= k < |s| && s[k] == delim && forall j :: 0 <= j < k ==> s[j] != delim
    ensures RemoveDelim(s, delim) == s[..k] + RemoveDelim(s[k + 1..], delim)
  {
    assert s == s[..k] + ([delim] + s[k + 1..]);
    assert forall j :: 0 <= j < k ==> s[..k][j] == s[j];
    RemoveDelimAbsent(s[..k], delim);
    RemoveDelimAppend(s[..k], [delim] + s[k + 1..], delim);
    RemoveDelimAppend([delim], s[k + 1..], delim);
    assert RemoveDelim([delim], delim) == [];
  }

  /** Putting the tokens back together gives the string with every delimiter removed. */
  lemma {:induction false} ConcatTokens(s: string, delim: char)
    ensures Concat(Tokens(s, delim)) == RemoveDelim(s, delim)
    decreases |s|
  {
    if s != [] {
      var k := NextDelim(s, 0, delim);
      if k == |s| {
        TokensWhole(s, delim);
      } else {
        var head, tail := s[..k], s[k + 1..];
        TokensAt(s, delim);
        ConcatTokens(tail, delim);
        RemoveDelimAt(s, k, delim);
        if k != 0 {
          assert Tokens(s, delim) == [head] + Tokens(tail, delim);
          ConcatCons(head, Tokens(tail, delim));
        } else {
          assert Tokens(s, delim) == Tokens(tail, delim);
          assert head == [];
        }
      }
    }
  }

  /**
   * split(str, delim, tokens): every non-empty getline item is pushed onto
   * the given vector, whose earlier contents stay in front.
   */
  method SplitInto(str: string, delim: char, tokens: seq<string>) returns (tokens': seq<string>)
    ensures tokens' == tokens + Tokens(str, delim)
  {
    tokens' := tokens;
    var pos := 0;
    while pos < |str|
      invariant 0 <= pos <= |str|
      invariant tokens' + Tokens(str[pos..], delim) == tokens + Tokens(str, delim)
      decreases |str| - pos
    {
      var token, next := GetLine(str, pos, delim);
      TokensFrom(str, pos, delim, token, next);
      if token != [] {
        tokens' := tokens' + [token];
      }
      pos := next;
    }
    assert str[pos..] == [];
  }

  /** The tokens from pos on: the item getline reads there (unless empty), then the tokens after it. */
  lemma TokensFrom(str: string, pos: nat, delim: char, token: string, next: nat)
    requires pos < |str| && token == str[pos..NextDelim(str, pos, delim)]
    requires next == if NextDelim(str, pos, delim) < |str| then NextDelim(str, pos, delim) + 1 else |str|
    ensures Tokens(str[pos..], delim) == (if token == [] then [] else [token]) + Tokens(str[next..], delim)
  {
    SplitFrom(str, pos, delim);
    if NextDelim(str, pos, delim) == |str| {
      assert token == str[pos..];
      assert str[next..] == [];
    }
    assert Split(str[pos..], delim) == [token] + Split(str[next..], delim);
    NonEmptyCons(token, Split(str[next..], delim));
  }

  /** split(str, delim): a fresh vector holding this string's tokens only. */
  method SplitFresh(str: string, delim: char) returns (tokens: seq<string>)
    ensures tokens == Tokens(str, delim)
  {
    tokens := SplitInto(str, delim, []);
  }

  // ---------------------------------------------------------------- the mesh

  datatype Vertex = Vertex(x: real, y: real, restx: real, resty: real, vx: real, vy: real, fx: real, fy: real, mass: real)

  /** Indices of the corners, and the area when the mesh is at rest. */
  datatype Triangle = Triangle(p1: int, p2: int, p3: int, restarea: real)

  /** The 2×2 rest matrix, row by row. */
  datatype RestMat = RestMat(m00: real, m01: real, m10: real, m11: real)

  datatype Mesh = Mesh(vertices: seq<Vertex>, triangles: seq<Triangle>, restmats: seq<RestMat>)

  datatype ParseResult = Parsed | CannotOpen | Aborted

  /** A vertex as read: at rest where it stands, still, unforced, of mass 1. */
  function AtRest(x: real, y: real): Vertex
  {
    Vertex(x, y, x, y, 0.0, 0.0, 0.0, 0.0, 1.0)
  }

  /** The 0-based index of a face token: the 1-based number before the first '/'. */
  function FaceIndex(p: ObjWords.Parsers, token: string): Option<int>
  {
    var parts := Tokens(token, '/');
    if parts == [] then None else Some(p.atoi(parts[0]) - 1)
  }

  /** Columns: the rest edges from the third corner to the first and to the second. */
  function RestMatOf(a: Vertex, b: Vertex, c: Vertex): RestMat
  {
    RestMat(a.restx - c.restx, b.restx - c.restx, a.resty - c.resty, b.resty - c.resty)
  }

  /** ½·|v|: fabs(v) / 2. */
  function HalfAbs(v: real): (h: real)
    ensures h >= 0.0
  {
    0.5 * (if v < 0.0 then -v else v)
  }

  /** ½·|det| of the rest matrix. */
  function RestArea(r: RestMat): (area: real)
    ensures area >= 0.0
  {
    HalfAbs(r.m00 * r.m11 - r.m10 * r.m01)
  }

  /** The shoelace area of a triangle, an independent formula. */
  function Shoelace(x1: real, y1: real, x2: real, y2: real, x3: real, y3: real): real
  {
    HalfAbs(x1 * (y2 - y3) + x2 * (y3 - y1) + x3 * (y1 - y2))
  }

  /** The rest area is the area of the triangle the three rest positions span. */
  lemma RestAreaIsShoelace(a: Vertex, b: Vertex, c: Vertex)
    ensures RestArea(RestMatOf(a, b, c)) == Shoelace(a.restx, a.resty, b.restx, b.resty, c.restx, c.resty)
  {
    var x1, y1, x2, y2, x3, y3 := a.restx, a.resty, b.restx, b.resty, c.restx, c.resty;
    var r := RestMatOf(a, b, c);
    assert r.m00 == x1 - x3 && r.m01 == x2 - x3 && r.m10 == y1 - y3 && r.m11 == y2 - y3;
    ShoelaceDet(x1, y1, x2, y2, x3, y3);
    SameHalfAbs(r.m00 * r.m11 - r.m10 * r.m01, x1 * (y2 - y3) + x2 * (y3 - y1) + x3 * (y1 - y2));
  }

  lemma SameHalfAbs(d: real, e: real)
    requires d == e
    ensures HalfAbs(d) == HalfAbs(e)
  {
  }

  /** The determinant of the edge matrix, multiplied out. */
  lemma ShoelaceDet(x1: real, y1: real, x2: real, y2: real, x3: real, y3: real)
    ensures (x1 - x3) * (y2 - y3) - (y1 - y3) * (x2 - x3) == x1 * (y2 - y3) + x2 * (y3 - y1) + x3 * (y1 - y2)
  {
    calc {
      (x1 - x3) * (y2 - y3) - (y1 - y3) * (x2 - x3);
      x1 * (y2 - y3) - x3 * (y2 - y3) - (y1 * (x2 - x3) - y3 * (x2 - x3));
      x1 * (y2 - y3) - x3 * y2 + x3 * y3 - y1 * x2 + y1 * x3 + y3 * x2 - y3 * x3;
      x1 * (y2 - y3) + x2 * (y3 - y1) + x3 * (y1 - y2);
    }
  }

  predicate TriangleValid(vs: seq<Vertex>, t: Triangle, r: RestMat)
  {
    0 <= t.p1 < |vs| && 0 <= t.p2 < |vs| && 0 <= t.p3 < |vs| &&
    r == RestMatOf(vs[t.p1], vs[t.p2], vs[t.p3]) && t.restarea == RestArea(r)
  }

  /**
   * Every triangle's corners exist, its rest matrix and rest area are those
   * of its corners' rest positions, and every mass is 1.
   */
  predicate MeshValid(vs: seq<Vertex>, ts: seq<Triangle>, rs: seq<RestMat>)
  {
    |ts| == |rs| &&
    (forall k :: 0 <= k < |ts| ==> TriangleValid(vs, ts[k], rs[k])) &&
    (forall i :: 0 <= i < |vs| ==> vs[i].mass == 1.0)
  }

  /** Same vertices as far as the rest positions and masses go. */
  predicate SameRest(vs: seq<Vertex>, ws: seq<Vertex>)
  {
    |vs| == |ws| &&
    forall i :: 0 <= i < |vs| ==> ws[i].restx == vs[i].restx && ws[i].resty == vs[i].resty && ws[i].mass == vs[i].mass
  }

  /** The same vertices but for their forces. */
  predicate OnlyForces(vs: seq<Vertex>, ws: seq<Vertex>)
  {
    |vs| == |ws| && forall i :: 0 <= i < |vs| ==> ws[i] == vs[i].(fx := ws[i].fx, fy := ws[i].fy)
  }

  lemma OnlyForcesKeepRest(vs: seq<Vertex>, ws: seq<Vertex>)
    requires OnlyForces(vs, ws)
    ensures SameRest(vs, ws)
  {
    forall i | 0 <= i < |vs|
      ensures ws[i].restx == vs[i].restx && ws[i].resty == vs[i].resty && ws[i].mass == vs[i].mass
    {
      assert ws[i] == vs[i].(fx := ws[i].fx, fy := ws[i].fy);
    }
  }

  /** Moving, pushing or accelerating vertices keeps a mesh valid. */
  lemma MeshValidKept(vs: seq<Vertex>, ws: seq<Vertex>, ts: seq<Triangle>, rs: seq<RestMat>)
    requires MeshValid(vs, ts, rs) && SameRest(vs, ws)
    ensures MeshValid(ws, ts, rs)
  {
    forall k | 0 <= k < |ts|
      ensures TriangleValid(ws, ts[k], rs[k])
    {
      assert TriangleValid(vs, ts[k], rs[k]);
    }
  }

  // ---------------------------------------------------------------- parse_OBJ

  /**
   * One line of the OBJ file, already split on ' '. A blank line and any
   * other keyword leave the mesh alone; a "v" line appends a vertex at rest;
   * an "f" line appends a triangle and its rest matrix. None stands for a
   * line the program dies on: too few tokens, a face token with nothing
   * before '/', or a corner index outside the vertices read so far.
   */
  function ObjLine(p: ObjWords.Parsers, mesh: Mesh, tokens: seq<string>): (r: Option<Mesh>)
    ensures r.Some? ==> mesh.vertices <= r.value.vertices && mesh.triangles <= r.value.triangles && mesh.restmats <= r.value.restmats
    ensures r.Some? && MeshValid(mesh.vertices, mesh.triangles, mesh.restmats) ==>
              MeshValid(r.value.vertices, r.value.triangles, r.value.restmats)
  {
    var vs := mesh.vertices;
    if tokens == [] then Some(mesh)
    else if tokens[0] == "v" then
      if |tokens| < 3 then None
      else Some(mesh.(vertices := vs + [AtRest(p.strtod(tokens[1]), p.strtod(tokens[2]))]))
    else if tokens[0] == "f" then
      if |tokens| < 4 then None
      else
        var i1, i2, i3 := FaceIndex(p, tokens[1]), FaceIndex(p, tokens[2]), FaceIndex(p, tokens[3]);
        if i1.None? || i2.None? || i3.None? then None
        else if !(0 <= i1.value < |vs| && 0 <= i2.value < |vs| && 0 <= i3.value < |vs|) then None
        else
          var rm := RestMatOf(vs[i1.value], vs[i2.value], vs[i3.value]);
          Some(Mesh(vs, mesh.triangles + [Triangle(i1.value, i2.value, i3.value, RestArea(rm))], mesh.restmats + [rm]))
    else Some(mesh)
  }

  /** The lines read in order from mesh; false when a line kills the program (mesh as it stood then). */
  function ObjFrom(p: ObjWords.Parsers, lines: seq<string>, mesh: Mesh): (r: (Mesh, bool))
    ensures mesh.vertices <= r.0.vertices && mesh.triangles <= r.0.triangles && mesh.restmats <= r.0.restmats
    ensures MeshValid(mesh.vertices, mesh.triangles, mesh.restmats) ==> MeshValid(r.0.vertices, r.0.triangles, r.0.restmats)
  {
    if lines == [] then (mesh, true)
    else match ObjLine(p, mesh, Tokens(lines[0], ' '))
      case None => (mesh, false)
      case Some(next) => ObjFrom(p, lines[1..], next)
  }

  lemma ObjFromStep(p: ObjWords.Parsers, lines: seq<string>, i: nat, mesh: Mesh)
    requires i < |lines|
    ensures ObjLine(p, mesh, Tokens(lines[i], ' ')).None? ==> ObjFrom(p, lines[i..], mesh) == (mesh, false)
    ensures ObjLine(p, mesh, Tokens(lines[i], ' ')).Some? ==>
              ObjFrom(p, lines[i..], mesh) == ObjFrom(p, lines[i + 1..], ObjLine(p, mesh, Tokens(lines[i], ' ')).value)
  {
    assert lines[i..][0] == lines[i] && lines[i..][1..] == lines[i + 1..];
  }

  /** A face token's index is the number before its first '/' (or the whole token), minus one. */
  lemma FaceIndexBeforeSlash(p: ObjWords.Parsers, w: string, rest: string)
    requires w != [] && '/' !in w && (rest == [] || rest[0] == '/')
    ensures FaceIndex(p, w + rest) == Some(p.atoi(w) - 1)
  {
    var s := w + rest;
    assert forall j :: 0 <= j < |w| ==> s[j] == w[j] && s[j] in w;
    var k := NextDelim(s, 0, '/');
    if rest == [] {
      assert s == w;
      assert k == |s|;
      assert Split(s, '/') == [s];
    } else {
      assert s[|w|] == '/';
      assert k == |w|;
      assert s[..k] == w;
    }
    NonEmptyCons(w, Split(s, '/')[1..]);
    assert Split(s, '/') == [w] + Split(s, '/')[1..];
  }

  /** A "v x y" line appends one vertex resting at (x, y) with no velocity, no force and mass 1. */
  lemma ParsedVertexAtRest(p: ObjWords.Parsers, mesh: Mesh, a: string, b: string, more: seq<string>)
    ensures var r := ObjLine(p, mesh, ["v", a, b] + more);
            r.Some? && r.value.triangles == mesh.triangles && r.value.restmats == mesh.restmats &&
            |r.value.vertices| == |mesh.vertices| + 1 &&
            var v := r.value.vertices[|mesh.vertices|];
            v.x == v.restx == p.strtod(a) && v.y == v.resty == p.strtod(b) &&
            v.vx == v.vy == 0.0 && v.fx == v.fy == 0.0 && v.mass == 1.0
  {
  }

  /**
   * An "f a/… b/… c/…" line whose corners exist appends the triangle of
   * 0-based corners atoi(a)−1, atoi(b)−1, atoi(c)−1 with area ½·|det| of its rest matrix.
   */
  lemma ParsedFaceZeroBased(p: ObjWords.Parsers, mesh: Mesh, a: string, ra: string, b: string, rb: string,
                            c: string, rc: string, more: seq<string>)
    requires a != [] && '/' !in a && (ra == [] || ra[0] == '/')
    requires b != [] && '/' !in b && (rb == [] || rb[0] == '/')
    requires c != [] && '/' !in c && (rc == [] || rc[0] == '/')
    requires var n := |mesh.vertices|; 1 <= p.atoi(a) <= n && 1 <= p.atoi(b) <= n && 1 <= p.atoi(c) <= n
    ensures var r := ObjLine(p, mesh, ["f", a + ra, b + rb, c + rc] + more);
            var vs := mesh.vertices;
            var t := Triangle(p.atoi(a) - 1, p.atoi(b) - 1, p.atoi(c) - 1,
                              RestArea(RestMatOf(vs[p.atoi(a) - 1], vs[p.atoi(b) - 1], vs[p.atoi(c) - 1])));
            r == Some(Mesh(vs, mesh.triangles + [t], mesh.restmats + [RestMatOf(vs[t.p1], vs[t.p2], vs[t.p3])]))
  {
    var tokens := ["f", a + ra, b + rb, c + rc] + more;
    FaceIndexBeforeSlash(p, a, ra);
    FaceIndexBeforeSlash(p, b, rb);
    FaceIndexBeforeSlash(p, c, rc);
    ObjLineFace(p, mesh, tokens, p.atoi(a) - 1, p.atoi(b) - 1, p.atoi(c) - 1);
  }

  /** An "f" line whose three face tokens give corners that exist appends that triangle and its rest matrix. */
  lemma ObjLineFace(p: ObjWords.Parsers, mesh: Mesh, tokens: seq<string>, i1: int, i2: int, i3: int)
    requires |tokens| >= 4 && tokens[0] == "f"
    requires FaceIndex(p, tokens[1]) == Some(i1) && FaceIndex(p, tokens[2]) == Some(i2) && FaceIndex(p, tokens[3]) == Some(i3)
    requires var n := |mesh.vertices|; 0 <= i1 < n && 0 <= i2 < n && 0 <= i3 < n
    ensures var vs := mesh.vertices;
            var rm := RestMatOf(vs[i1], vs[i2], vs[i3]);
            ObjLine(p, mesh, tokens) == Some(Mesh(vs, mesh.triangles + [Triangle(i1, i2, i3, RestArea(rm))], mesh.restmats + [rm]))
  {
    assert tokens[0] != "v" by { assert tokens[0][0] != 'v'; }
  }

  /**
   * The body of parse_OBJ's loop for one line's tokens: push a vertex, or
   * a rest matrix and a triangle, or nothing; false where the program dies.
   */
  method ParseLine(p: ObjWords.Parsers, vs: seq<Vertex>, ts: seq<Triangle>, rs: seq<RestMat>, tokens: seq<string>)
    returns (ok: bool, vs': seq<Vertex>, ts': seq<Triangle>, rs': seq<RestMat>)
    ensures ok ==> ObjLine(p, Mesh(vs, ts, rs), tokens) == Some(Mesh(vs', ts', rs'))
    ensures !ok ==> ObjLine(p, Mesh(vs, ts, rs), tokens) == None
  {
    vs', ts', rs' := vs, ts, rs;
    if tokens != [] && tokens[0] == "v" {
      if |tokens| < 3 {
        return false, vs, ts, rs;
      }
      var x := p.strtod(tokens[1]);
      var y := p.strtod(tokens[2]);
      vs' := vs + [Vertex(x, y, x, y, 0.0, 0.0, 0.0, 0.0, 1.0)];
    } else if tokens != [] && tokens[0] == "f" {
      if |tokens| < 4 {
        return false, vs, ts, rs;
      }
      var i1 := FaceIndexOf(p, tokens[1]);
      var i2 := FaceIndexOf(p, tokens[2]);
      var i3 := FaceIndexOf(p, tokens[3]);
      if i1.None? || i2.None? || i3.None? {
        return false, vs, ts, rs;
      }
      var a, b, c := i1.value, i2.value, i3.value;
      if !(0 <= a < |vs| && 0 <= b < |vs| && 0 <= c < |vs|) {
        return false, vs, ts, rs;
      }
      var rm := RestMatOf(vs[a], vs[b], vs[c]);
      rs' := rs + [rm];
      ts' := ts + [Triangle(a, b, c, RestArea(rm))];
    }
    ok := true;
  }

  /** parse_OBJ's loop over the lines of the file, on the three lists. */
  method ReadLines(p: ObjWords.Parsers, lines: seq<string>, vs: seq<Vertex>, ts: seq<Triangle>, rs: seq<RestMat>)
    returns (ok: bool, vs': seq<Vertex>, ts': seq<Triangle>, rs': seq<RestMat>)
    ensures (Mesh(vs', ts', rs'), ok) == ObjFrom(p, lines, Mesh(vs, ts, rs))
  {
    vs', ts', rs' := vs, ts, rs;
    ok := true;
    var i := 0;
    while i < |lines| && ok
      invariant 0 <= i <= |lines|
      invariant ok ==> ObjFrom(p, lines[i..], Mesh(vs', ts', rs')) == ObjFrom(p, lines, Mesh(vs, ts, rs))
      invariant !ok ==> ObjFrom(p, lines, Mesh(vs, ts, rs)) == (Mesh(vs', ts', rs'), false)
    {
      var tokens := SplitFresh(lines[i], ' ');
      var lineOk, nvs, nts, nrs := ParseLine(p, vs', ts', rs', tokens);
      ObjFromStep(p, lines, i, Mesh(vs', ts', rs'));
      if lineOk {
        vs', ts', rs' := nvs, nts, nrs;
      }
      ok := lineOk;
      i := i + 1;
    }
    if ok {
      assert lines[i..] == [];
    }
  }

  /** stoi(split(token, '/').at(0)) − 1, with at(0) failing on a token that is all slashes. */
  method FaceIndexOf(p: ObjWords.Parsers, token: string) returns (index: Option<int>)
    ensures index == FaceIndex(p, token)
  {
    var parts := SplitFresh(token, '/');
    if parts == [] {
      return None;
    }
    return Some(p.atoi(parts[0]) - 1);
  }

  // ---------------------------------------------------------------- one frame of display

  const Tstep: real := 0.2
  const ClickRad: real := 0.05
  const XRes: int := 800
  const YRes: int := 800
  /** (rightParam − leftParam) / xres and (topParam − bottomParam) / yres, for the ±2 view box. */
  const MouseScaleX: real := (2.0 - -2.0) / XRes as real
  const MouseScaleY: real := (2.0 - -2.0) / YRes as real
  const LeftButton: int := 0
  const ButtonDown: int := 0
  const ButtonUp: int := 1

  /**
   * What updateforces derives for one triangle: the 2×2 matrix h whose
   * columns push the first two corners (the third gets minus their sum),
   * and the term it adds to the potential energy.
   */
  datatype Contribution = Contribution(h00: real, h01: real, h10: real, h11: real, energy: real)

  /** Every vertex with its force set to zero. */
  function Reset(vs: seq<Vertex>): (ws: seq<Vertex>)
    ensures |ws| == |vs|
  {
    seq(|vs|, i requires 0 <= i < |vs| => vs[i].(fx := 0.0, fy := 0.0))
  }

  predicate Corners(n: nat, t: Triangle)
  {
    0 <= t.p1 < n && 0 <= t.p2 < n && 0 <= t.p3 < n
  }

  /** vertices[i].fx += d */
  function PushX(vs: seq<Vertex>, i: int, d: real): (ws: seq<Vertex>)
    requires 0 <= i < |vs|
    ensures |ws| == |vs|
  {
    vs[i := vs[i].(fx := vs[i].fx + d)]
  }

  /** vertices[i].fy += d */
  function PushY(vs: seq<Vertex>, i: int, d: real): (ws: seq<Vertex>)
    requires 0 <= i < |vs|
    ensures |ws| == |vs|
  {
    vs[i := vs[i].(fy := vs[i].fy + d)]
  }

  /** One triangle's forces added to its three corners, in the order updateforces does it. */
  function Distribute(vs: seq<Vertex>, t: Triangle, c: Contribution): (ws: seq<Vertex>)
    requires Corners(|vs|, t)
    ensures |ws| == |vs|
  {
    var a := PushX(PushX(PushX(vs, t.p1, c.h00), t.p2, c.h01), t.p3, -c.h00 - c.h01);
    PushY(PushY(PushY(a, t.p1, c.h10), t.p2, c.h11), t.p3, -c.h10 - c.h11)
  }

  /** The forces of the first n triangles added one triangle after another. */
  function Accumulated(vs: seq<Vertex>, ts: seq<Triangle>, cs: seq<Contribution>, n: nat): (ws: seq<Vertex>)
    requires n <= |ts| == |cs| && forall k :: 0 <= k < |ts| ==> Corners(|vs|, ts[k])
    ensures |ws| == |vs|
  {
    if n == 0 then vs
    else Distribute(Accumulated(vs, ts, cs, n - 1), ts[n - 1], cs[n - 1])
  }

  /** One more triangle's energy added to the potential. */
  lemma PotentialNext(cs: seq<Contribution>, i: nat)
    requires i < |cs|
    ensures Potential(cs[..i + 1]) == Potential(cs[..i]) + cs[i].energy
  {
    assert cs[..i + 1][..i] == cs[..i];
  }

  /** The potential energy: the triangles' terms added to 0 in order. */
  function Potential(cs: seq<Contribution>): real
  {
    if cs == [] then 0.0 else Potential(cs[..|cs| - 1]) + cs[|cs| - 1].energy
  }

  function Force(v: Vertex, horizontal: bool): real
  {
    if horizontal then v.fx else v.fy
  }

  /** The net force on the mesh, along x or along y. */
  function NetForce(vs: seq<Vertex>, horizontal: bool): real
  {
    if vs == [] then 0.0 else NetForce(vs[..|vs| - 1], horizontal) + Force(vs[|vs| - 1], horizontal)
  }

  lemma {:induction false} NetForceUpdate(vs: seq<Vertex>, i: int, v: Vertex, horizontal: bool)
    requires 0 <= i < |vs|
    ensures NetForce(vs[i := v], horizontal) == NetForce(vs, horizontal) - Force(vs[i], horizontal) + Force(v, horizontal)
    decreases |vs|
  {
    var ws := vs[i := v];
    var n := |vs| - 1;
    assert ws[..n] == if i < n then vs[..n][i := v] else vs[..n];
    if i < n {
      NetForceUpdate(vs[..n], i, v, horizontal);
    }
  }

  lemma PushXForce(vs: seq<Vertex>, i: int, d: real, horizontal: bool)
    requires 0 <= i < |vs|
    ensures NetForce(PushX(vs, i, d), horizontal) == NetForce(vs, horizontal) + (if horizontal then d else 0.0)
  {
    NetForceUpdate(vs, i, vs[i].(fx := vs[i].fx + d), horizontal);
  }

  lemma PushYForce(vs: seq<Vertex>, i: int, d: real, horizontal: bool)
    requires 0 <= i < |vs|
    ensures NetForce(PushY(vs, i, d), horizontal) == NetForce(vs, horizontal) + (if horizontal then 0.0 else d)
  {
    NetForceUpdate(vs, i, vs[i].(fy := vs[i].fy + d), horizontal);
  }

  lemma OnlyForcesChain(a: seq<Vertex>, b: seq<Vertex>, c: seq<Vertex>, d: seq<Vertex>)
    requires OnlyForces(a, b) && OnlyForces(b, c) && OnlyForces(c, d)
    ensures OnlyForces(a, d)
  {
    forall i | 0 <= i < |a|
      ensures d[i] == a[i].(fx := d[i].fx, fy := d[i].fy)
    {
      assert b[i] == a[i].(fx := b[i].fx, fy := b[i].fy);
      assert c[i] == b[i].(fx := c[i].fx, fy := c[i].fy);
      assert d[i] == c[i].(fx := d[i].fx, fy := d[i].fy);
    }
  }

  /** Each triangle's three pushes cancel out: distributing them leaves the net force as it was. */
  lemma DistributeBalanced(vs: seq<Vertex>, t: Triangle, c: Contribution, horizontal: bool)
    requires Corners(|vs|, t)
    ensures NetForce(Distribute(vs, t, c), horizontal) == NetForce(vs, horizontal)
  {
    var a1 := PushX(vs, t.p1, c.h00);
    var a2 := PushX(a1, t.p2, c.h01);
    var a3 := PushX(a2, t.p3, -c.h00 - c.h01);
    var b1 := PushY(a3, t.p1, c.h10);
    var b2 := PushY(b1, t.p2, c.h11);
    var b3 := PushY(b2, t.p3, -c.h10 - c.h11);
    assert b3 == Distribute(vs, t, c);
    PushXForce(vs, t.p1, c.h00, horizontal);
    PushXForce(a1, t.p2, c.h01, horizontal);
    PushXForce(a2, t.p3, -c.h00 - c.h01, horizontal);
    PushYForce(a3, t.p1, c.h10, horizontal);
    PushYForce(b1, t.p2, c.h11, horizontal);
    PushYForce(b2, t.p3, -c.h10 - c.h11, horizontal);
  }

  /** Distributing a triangle's forces changes forces only. */
  lemma DistributeOnlyForces(vs: seq<Vertex>, t: Triangle, c: Contribution)
    requires Corners(|vs|, t)
    ensures OnlyForces(vs, Distribute(vs, t, c))
  {
    var a1 := PushX(vs, t.p1, c.h00);
    var a2 := PushX(a1, t.p2, c.h01);
    var a3 := PushX(a2, t.p3, -c.h00 - c.h01);
    var b1 := PushY(a3, t.p1, c.h10);
    var b2 := PushY(b1, t.p2, c.h11);
    var b3 := PushY(b2, t.p3, -c.h10 - c.h11);
    assert b3 == Distribute(vs, t, c);
    assert OnlyForces(vs, a1) && OnlyForces(a1, a2) && OnlyForces(a2, a3);
    assert OnlyForces(a3, b1) && OnlyForces(b1, b2) && OnlyForces(b2, b3);
    OnlyForcesChain(vs, a1, a2, a3);
    OnlyForcesChain(a3, b1, b2, b3);
    OnlyForcesChain(vs, vs, a3, b3);
  }

  lemma {:induction false} ResetNoForce(vs: seq<Vertex>, horizontal: bool)
    ensures NetForce(Reset(vs), horizontal) == 0.0
    decreases |vs|
  {
    if vs != [] {
      var n := |vs| - 1;
      assert Reset(vs)[..n] == Reset(vs[..n]);
      ResetNoForce(vs[..n], horizontal);
    }
  }

  /**
   * Forces are reset before the triangles add theirs, and every triangle's
   * pushes cancel: the mesh as a whole feels no net force.
   */
  lemma {:induction false} NoNetForce(vs: seq<Vertex>, ts: seq<Triangle>, cs: seq<Contribution>, n: nat, horizontal: bool)
    requires n <= |ts| == |cs| && forall k :: 0 <= k < |ts| ==> Corners(|vs|, ts[k])
    ensures NetForce(Accumulated(Reset(vs), ts, cs, n), horizontal) == 0.0
  {
    if n == 0 {
      ResetNoForce(vs, horizontal);
    } else {
      NoNetForce(vs, ts, cs, n - 1, horizontal);
      DistributeBalanced(Accumulated(Reset(vs), ts, cs, n - 1), ts[n - 1], cs[n - 1], horizontal);
    }
  }

  /**
   * The forces display leaves on the vertices before stepping them: reset,
   * then every triangle's added in turn. Only forces change, and the net
   * force on the mesh is zero.
   */
  function Forced(vs: seq<Vertex>, ts: seq<Triangle>, cs: seq<Contribution>): (ws: seq<Vertex>)
    requires |ts| == |cs| && forall k :: 0 <= k < |ts| ==> Corners(|vs|, ts[k])
    ensures OnlyForces(vs, ws)
    ensures NetForce(ws, true) == 0.0 && NetForce(ws, false) == 0.0
  {
    FrameOnlyForces(vs, ts, cs, |ts|);
    NoNetForce(vs, ts, cs, |ts|, true);
    NoNetForce(vs, ts, cs, |ts|, false);
    Accumulated(Reset(vs), ts, cs, |ts|)
  }

  /** The explicit Euler step of one vertex: velocity from the force, then position from the new velocity. */
  function Stepped(v: Vertex): Vertex
    requires v.mass != 0.0
  {
    var nvx := v.vx + Tstep / v.mass * v.fx;
    var nvy := v.vy + Tstep / v.mass * v.fy;
    v.(x := v.x + Tstep * nvx, y := v.y + Tstep * nvy, vx := nvx, vy := nvy)
  }

  /** Over one step the momentum changes by force × tstep and the position by the new velocity × tstep. */
  lemma SteppedIsEuler(v: Vertex)
    requires v.mass != 0.0
    ensures (Stepped(v).vx - v.vx) * v.mass == Tstep * v.fx
    ensures (Stepped(v).vy - v.vy) * v.mass == Tstep * v.fy
    ensures Stepped(v).x - v.x == Tstep * Stepped(v).vx && Stepped(v).y - v.y == Tstep * Stepped(v).vy
    ensures Stepped(v).fx == v.fx && Stepped(v).fy == v.fy && Stepped(v).restx == v.restx && Stepped(v).resty == v.resty
  {
    QuotientTimesDivisor(Tstep, v.mass);
    assert (Tstep / v.mass * v.fx) * v.mass == (v.mass * (Tstep / v.mass)) * v.fx;
    assert (Tstep / v.mass * v.fy) * v.mass == (v.mass * (Tstep / v.mass)) * v.fy;
  }

  lemma QuotientTimesDivisor(x: real, s: real)
    requires s != 0.0
    ensures s * (x / s) == x
  {
  }

  /** The index the update skips: the dragged vertex while dragging, none (−1) otherwise. */
  function Skipped(dragging: bool, draggedPoint: int): int
  {
    if dragging then draggedPoint else -1
  }

  /** Every vertex stepped except the skipped one. */
  function Integrated(vs: seq<Vertex>, skip: int): (ws: seq<Vertex>)
    requires forall i :: 0 <= i < |vs| ==> vs[i].mass != 0.0
    ensures |ws| == |vs|
  {
    seq(|vs|, i requires 0 <= i < |vs| => if i == skip then vs[i] else Stepped(vs[i]))
  }

  /** A vertex's kinetic energy with unit mass, as display computes it: ½·(vx² + vy²). */
  function KineticOf(v: Vertex): real
  {
    1.0 / 2.0 * (v.vx * v.vx + v.vy * v.vy)
  }

  /** ke: the kinetic energies of the stepped vertices summed in order. */
  function Kinetic(vs: seq<Vertex>, skip: int): real
  {
    if vs == [] then 0.0
    else Kinetic(vs[..|vs| - 1], skip) + (if |vs| - 1 == skip then 0.0 else KineticOf(vs[|vs| - 1]))
  }

  lemma KineticStep(vs: seq<Vertex>, i: int, skip: int)
    requires 0 <= i < |vs|
    ensures Kinetic(vs[..i + 1], skip) == Kinetic(vs[..i], skip) + (if i == skip then 0.0 else KineticOf(vs[i]))
  {
    assert vs[..i + 1][..i] == vs[..i];
  }

  lemma {:induction false} KineticNonNegative(vs: seq<Vertex>, skip: int)
    ensures Kinetic(vs, skip) >= 0.0
    decreases |vs|
  {
    if vs != [] {
      var v := vs[|vs| - 1];
      KineticNonNegative(vs[..|vs| - 1], skip);
      assert v.vx * v.vx >= 0.0 && v.vy * v.vy >= 0.0;
      assert KineticOf(v) >= 0.0;
    }
  }

  /** Where the click at window pixel (x, y) lands in the ±2 view box. */
  function ClickX(x: int): real
  {
    (x as real - XRes as real / 2.0) * MouseScaleX
  }

  function ClickY(y: int): real
  {
    -(y as real - YRes as real / 2.0) * MouseScaleY
  }

  /** The window's corners map onto the corners of the orthographic view box, y pointing up. */
  lemma ClickMatchesView()
    ensures ClickX(0) == -2.0 && ClickX(XRes) == 2.0
    ensures ClickY(0) == 2.0 && ClickY(YRes) == -2.0
    ensures ClickX(XRes / 2) == 0.0 && ClickY(YRes / 2) == 0.0
  {
  }

  predicate Near(v: Vertex, x: real, y: real)
  {
    v.x > x - ClickRad && v.x < x + ClickRad && v.y > y - ClickRad && v.y < y + ClickRad
  }

  /** The first vertex from index `from` on within clickRad of (x, y) on both axes, or −1. */
  function ClickedPointFrom(vs: seq<Vertex>, x: real, y: real, from: nat): (i: int)
    requires from <= |vs|
    ensures i == -1 || from <= i < |vs|
    ensures i == -1 ==> forall j :: from <= j < |vs| ==> !Near(vs[j], x, y)
    ensures i != -1 ==> Near(vs[i], x, y) && forall j :: from <= j < i ==> !Near(vs[j], x, y)
    decreases |vs| - from
  {
    if from == |vs| then -1
    else if Near(vs[from], x, y) then from
    else ClickedPointFrom(vs, x, y, from + 1)
  }

  /** A vertex moved by the mouse going from pixel (fromX, fromY) to (toX, toY). */
  function Dragged(v: Vertex, fromX: int, fromY: int, toX: int, toY: int): Vertex
  {
    v.(x := v.x + (toX - fromX) as real * MouseScaleX, y := v.y - (toY - fromY) as real * MouseScaleY)
  }

  /** The dragged vertex moves exactly as far as the cursor does in view coordinates. */
  lemma DragFollowsCursor(v: Vertex, fromX: int, fromY: int, toX: int, toY: int)
    ensures Dragged(v, fromX, fromY, toX, toY).x - v.x == ClickX(toX) - ClickX(fromX)
    ensures Dragged(v, fromX, fromY, toX, toY).y - v.y == ClickY(toY) - ClickY(fromY)
    ensures Dragged(v, fromX, fromY, toX, toY).restx == v.restx && Dragged(v, fromX, fromY, toX, toY).vx == v.vx
  {
  }

  /** Two drags in a row land where one drag over the whole way does; dragging back undoes a drag. */
  lemma DragsCompose(v: Vertex, x1: int, y1: int, x2: int, y2: int, x3: int, y3: int)
    ensures Dragged(Dragged(v, x1, y1, x2, y2), x2, y2, x3, y3) == Dragged(v, x1, y1, x3, y3)
    ensures Dragged(Dragged(v, x1, y1, x2, y2), x2, y2, x1, y1) == v
  {
  }

  // ---------------------------------------------------------------- the demo's globals

  class ElasticDemo {
    var vertices: seq<Vertex>
    var triangles: seq<Triangle>
    var restmats: seq<RestMat>
    var ke: real
    var pe: real
    var minTotal: real
    var maxTotal: real
    var totalTime: real
    var mouseX: int
    var mouseY: int
    var draggedPoint: int
    var dragging: bool
    /** The totals ke + pe of the frames displayed so far. */
    ghost var totals: seq<real>

    /**
     * The mesh is valid, a dragged vertex exists, min_total and max_total
     * are the running range of the totals shown, and the clock has moved
     * one tstep per frame.
     */
    ghost predicate Valid()
      reads this
    {
      MeshValid(vertices, triangles, restmats) &&
      (dragging ==> 0 <= draggedPoint < |vertices|) &&
      Totals(minTotal, maxTotal) == RecordAll(totals) &&
      totalTime == |totals| as real * Tstep
    }

    /** The energies, totals and clock as they were. */
    twostate predicate EnergyUnchanged()
      reads this
    {
      ke == old(ke) && pe == old(pe) && minTotal == old(minTotal) && maxTotal == old(maxTotal) &&
      totalTime == old(totalTime) && totals == old(totals)
    }

    /** The mouse state as it was. */
    twostate predicate MouseUnchanged()
      reads this
    {
      mouseX == old(mouseX) && mouseY == old(mouseY) && draggedPoint == old(draggedPoint) && dragging == old(dragging)
    }

    /** Everything but the vertices and the potential energy as it was. */
    twostate predicate ForcesAndPotentialOnly()
      reads this
    {
      triangles == old(triangles) && restmats == old(restmats) && MouseUnchanged() &&
      ke == old(ke) && minTotal == old(minTotal) && maxTotal == old(maxTotal) &&
      totalTime == old(totalTime) && totals == old(totals)
    }

    /** The globals before main runs: empty lists, zero energies and clock, the float extremes, no drag. */
    constructor ()
      ensures Valid()
      ensures vertices == [] && triangles == [] && restmats == []
      ensures ke == 0.0 && pe == 0.0 && totalTime == 0.0 && Totals(minTotal, maxTotal) == Initial
      ensures !dragging && totals == []
    {
      vertices, triangles, restmats := [], [], [];
      ke, pe := 0.0, 0.0;
      minTotal, maxTotal := FltMax, -FltMax;
      totalTime := 0.0;
      mouseX, mouseY, draggedPoint := 0, 0, 0;
      dragging := false;
      totals := [];
    }

    /**
     * parse_OBJ: a file that cannot be opened changes nothing; otherwise
     * the lines are read in order, appending to the three lists, until the
     * end or a line the program dies on.
     */
    method ParseObj(p: ObjWords.Parsers, files: map<string, string>, name: string) returns (r: ParseResult)
      requires Valid()
      modifies this
      ensures Valid() && EnergyUnchanged() && MouseUnchanged()
      ensures name !in files ==> r == CannotOpen && vertices == old(vertices) && triangles == old(triangles) && restmats == old(restmats)
      ensures name in files ==>
                var res := ObjFrom(p, Split(files[name], '\n'), Mesh(old(vertices), old(triangles), old(restmats)));
                Mesh(vertices, triangles, restmats) == res.0 && r == (if res.1 then Parsed else Aborted)
    {
      if name !in files {
        return CannotOpen;
      }
      var lines := StrSplit(files[name], '\n');
      var ok, vs, ts, rs := ReadLines(p, lines, vertices, triangles, restmats);
      Load(vs, ts, rs);
      return if ok then Parsed else Aborted;
    }

    /** The three lists as parse_OBJ leaves them. */
    method Load(vs: seq<Vertex>, ts: seq<Triangle>, rs: seq<RestMat>)
      requires Valid() && MeshValid(vs, ts, rs) && vertices <= vs
      modifies this
      ensures Valid() && EnergyUnchanged() && MouseUnchanged()
      ensures vertices == vs && triangles == ts && restmats == rs
    {
      vertices, triangles, restmats := vs, ts, rs;
    }

    /** Lines 313-317 of display: every vertex's force back to zero. */
    method ResetForces()
      modifies this
      ensures vertices == Reset(old(vertices))
      ensures triangles == old(triangles) && restmats == old(restmats) && EnergyUnchanged() && MouseUnchanged()
    {
      var vs := vertices;
      var i := 0;
      while i < |vs|
        invariant 0 <= i <= |vs| == |vertices|
        invariant forall j :: 0 <= j < i ==> vs[j] == vertices[j].(fx := 0.0, fy := 0.0)
        invariant forall j :: i <= j < |vs| ==> vs[j] == vertices[j]
      {
        vs := vs[i := vs[i].(fx := 0.0, fy := 0.0)];
        i := i + 1;
      }
      vertices := vs;
    }

    /** updateforces(index), given what Eigen derives for the triangle: its pushes on the corners and its energy. */
    method UpdateForces(index: int, c: Contribution)
      requires 0 <= index < |triangles| && Corners(|vertices|, triangles[index])
      modifies this
      ensures ForcesAndPotentialOnly()
      ensures vertices == Distribute(old(vertices), triangles[index], c)
      ensures pe == old(pe) + c.energy
    {
      var t := triangles[index];
      vertices := vertices[t.p1 := vertices[t.p1].(fx := vertices[t.p1].fx + c.h00)];
      vertices := vertices[t.p2 := vertices[t.p2].(fx := vertices[t.p2].fx + c.h01)];
      vertices := vertices[t.p3 := vertices[t.p3].(fx := vertices[t.p3].fx + (-c.h00 - c.h01))];
      vertices := vertices[t.p1 := vertices[t.p1].(fy := vertices[t.p1].fy + c.h10)];
      vertices := vertices[t.p2 := vertices[t.p2].(fy := vertices[t.p2].fy + c.h11)];
      vertices := vertices[t.p3 := vertices[t.p3].(fy := vertices[t.p3].fy + (-c.h10 - c.h11))];
      pe := pe + c.energy;
    }

    /** Lines 324-325 of display: every triangle's forces added in turn. */
    method AccumulateForces(contributions: seq<Contribution>)
      requires |contributions| == |triangles| && forall k :: 0 <= k < |triangles| ==> Corners(|vertices|, triangles[k])
      modifies this
      ensures ForcesAndPotentialOnly()
      ensures vertices == Accumulated(old(vertices), triangles, contributions, |triangles|)
      ensures pe == old(pe) + Potential(contributions)
    {
      var i := 0;
      while i < |triangles|
        invariant ForcesAndPotentialOnly()
        invariant 0 <= i <= |triangles| && |vertices| == |old(vertices)|
        invariant vertices == Accumulated(old(vertices), triangles, contributions, i)
        invariant pe == old(pe) + Potential(contributions[..i])
      {
        PotentialNext(contributions, i);
        UpdateForces(i, contributions[i]);
        i := i + 1;
      }
      assert contributions[..i] == contributions;
    }

    /** Lines 328-351 of display: step every vertex but the dragged one, adding up the new kinetic energy. */
    method Integrate()
      requires forall i :: 0 <= i < |vertices| ==> vertices[i].mass != 0.0
      modifies this
      ensures triangles == old(triangles) && restmats == old(restmats) && MouseUnchanged()
      ensures vertices == Integrated(old(vertices), Skipped(dragging, draggedPoint))
      ensures ke == old(ke) + Kinetic(vertices, Skipped(dragging, draggedPoint))
      ensures pe == old(pe) && minTotal == old(minTotal) && maxTotal == old(maxTotal)
      ensures totalTime == old(totalTime) && totals == old(totals)
    {
      ghost var skip := Skipped(dragging, draggedPoint);
      ghost var target := Integrated(vertices, skip);
      var vs := vertices;
      var kinetic := ke;
      var i := 0;
      while i < |vs|
        invariant 0 <= i <= |vs| == |vertices| == |target|
        invariant forall j :: 0 <= j < i ==> vs[j] == target[j]
        invariant forall j :: i <= j < |vs| ==> vs[j] == vertices[j]
        invariant kinetic == ke + Kinetic(target[..i], skip)
        invariant vertices == old(vertices) && EnergyUnchanged() && MouseUnchanged()
        invariant triangles == old(triangles) && restmats == old(restmats)
      {
        KineticStep(target, i, skip);
        if dragging && draggedPoint == i {
          i := i + 1;
          continue;
        }
        var next := StepVertex(vs[i]);
        vs := vs[i := next];
        kinetic := kinetic + KineticOf(next);
        i := i + 1;
      }
      assert target[..i] == target;
      assert vs == target;
      vertices := vs;
      ke := kinetic;
    }

    /** The body of display's update loop for one vertex: new velocity from the force, then new position. */
    static method StepVertex(v: Vertex) returns (w: Vertex)
      requires v.mass != 0.0
      ensures w == Stepped(v)
    {
      var nextVx := v.vx + Tstep / v.mass * v.fx;
      var nextVy := v.vy + Tstep / v.mass * v.fy;
      var nextX := v.x + Tstep * nextVx;
      var nextY := v.y + Tstep * nextVy;
      w := v.(x := nextX, y := nextY, vx := nextVx, vy := nextVy);
    }

    /**
     * display, apart from drawing: forces reset and re-accumulated from
     * the triangles, every vertex but the dragged one stepped, the totals'
     * range widened by this frame's ke + pe, and the clock moved on by tstep.
     */
    method Display(contributions: seq<Contribution>)
      requires Valid() && |contributions| == |triangles|
      modifies this
      ensures triangles == old(triangles) && restmats == old(restmats) && MouseUnchanged()
      ensures Valid()
      ensures vertices == Integrated(Forced(old(vertices), triangles, contributions), Skipped(dragging, draggedPoint))
      ensures ke == Kinetic(vertices, Skipped(dragging, draggedPoint)) && pe == Potential(contributions)
      ensures NetForce(vertices, true) == 0.0 && NetForce(vertices, false) == 0.0
      ensures dragging ==> vertices[draggedPoint].x == old(vertices)[draggedPoint].x && vertices[draggedPoint].y == old(vertices)[draggedPoint].y
      ensures totals == old(totals) + [ke + pe]
      ensures Totals(minTotal, maxTotal) == Record(Totals(old(minTotal), old(maxTotal)), ke + pe)
      ensures totalTime == old(totalTime) + Tstep
    {
      ghost var skip, v0 := Skipped(dragging, draggedPoint), vertices;
      MeshValidCorners(vertices, triangles, restmats);
      FrameValid(vertices, triangles, restmats, contributions, skip);
      ke := 0.0;
      pe := 0.0;
      ResetForces();
      AccumulateForces(contributions);
      assert vertices == Forced(v0, triangles, contributions);
      Integrate();
      RecordFrame();
    }

    /** Lines 354-358 of display: this frame's total widens the range, and the clock moves on by tstep. */
    method RecordFrame()
      requires Totals(minTotal, maxTotal) == RecordAll(totals) && totalTime == |totals| as real * Tstep
      modifies this
      ensures vertices == old(vertices) && triangles == old(triangles) && restmats == old(restmats) && MouseUnchanged()
      ensures ke == old(ke) && pe == old(pe)
      ensures totals == old(totals) + [ke + pe]
      ensures Totals(minTotal, maxTotal) == Record(Totals(old(minTotal), old(maxTotal)), ke + pe)
      ensures Totals(minTotal, maxTotal) == RecordAll(totals) && totalTime == |totals| as real * Tstep
      ensures totalTime == old(totalTime) + Tstep
    {
      var total := ke + pe;
      minTotal := if total < minTotal then total else minTotal;
      maxTotal := if total > maxTotal then total else maxTotal;
      totals := totals + [total];
      assert totals[..|totals| - 1] == old(totals);
      totalTime := totalTime + Tstep;
    }

    /** getClickedPoint: the first vertex within clickRad of (x, y) on both axes, or −1 when there is none. */
    method GetClickedPoint(x: real, y: real) returns (index: int)
      ensures index == ClickedPointFrom(vertices, x, y, 0)
      ensures index == -1 <==> forall j :: 0 <= j < |vertices| ==> !Near(vertices[j], x, y)
      ensures index != -1 ==> 0 <= index < |vertices| && Near(vertices[index], x, y) &&
                              forall j :: 0 <= j < index ==> !Near(vertices[j], x, y)
    {
      var i := 0;
      while i < |vertices|
        invariant 0 <= i <= |vertices|
        invariant ClickedPointFrom(vertices, x, y, i) == ClickedPointFrom(vertices, x, y, 0)
      {
        if vertices[i].x > x - ClickRad && vertices[i].x < x + ClickRad &&
           vertices[i].y > y - ClickRad && vertices[i].y < y + ClickRad {
          return i;
        }
        i := i + 1;
      }
      return -1;
    }

    /**
     * mousePressed: a left press on a vertex starts dragging it from that
     * pixel; a left press elsewhere does nothing; a left release stops any drag.
     */
    method MousePressed(button: int, state: int, x: int, y: int)
      requires Valid()
      modifies this
      ensures Valid() && EnergyUnchanged()
      ensures vertices == old(vertices) && triangles == old(triangles) && restmats == old(restmats)
      ensures button == LeftButton && state == ButtonDown ==>
                var index := ClickedPointFrom(old(vertices), ClickX(x), ClickY(y), 0);
                if index == -1 then MouseUnchanged()
                else mouseX == x && mouseY == y && draggedPoint == index && dragging
      ensures button == LeftButton && state == ButtonUp ==>
                !dragging && mouseX == old(mouseX) && mouseY == old(mouseY) && draggedPoint == old(draggedPoint)
      ensures !(button == LeftButton && (state == ButtonDown || state == ButtonUp)) ==> MouseUnchanged()
    {
      if button == LeftButton && state == ButtonDown {
        var index := GetClickedPoint(ClickX(x), ClickY(y));
        if index == -1 {
          return;
        }
        mouseX := x;
        mouseY := y;
        draggedPoint := index;
        dragging := true;
      } else if button == LeftButton && state == ButtonUp {
        dragging := false;
      }
    }

    /** mouseMoved: while dragging, the dragged vertex follows the cursor and the cursor position is remembered. */
    method MouseMoved(x: int, y: int)
      requires Valid()
      modifies this
      ensures Valid() && EnergyUnchanged()
      ensures triangles == old(triangles) && restmats == old(restmats) && draggedPoint == old(draggedPoint) && dragging == old(dragging)
      ensures old(dragging) ==>
                vertices == old(vertices)[old(draggedPoint) := Dragged(old(vertices)[old(draggedPoint)], old(mouseX), old(mouseY), x, y)] &&
                mouseX == x && mouseY == y
      ensures old(dragging) ==> forall i :: 0 <= i < |vertices| && i != draggedPoint ==> vertices[i] == old(vertices)[i]
      ensures !old(dragging) ==> vertices == old(vertices) && mouseX == old(mouseX) && mouseY == old(mouseY)
    {
      if dragging {
        var dx := (x - mouseX) as real * MouseScaleX;
        var dy := (y - mouseY) as real * MouseScaleY;
        var v := vertices[draggedPoint];
        vertices := vertices[draggedPoint := v.(x := v.x + dx)];
        vertices := vertices[draggedPoint := vertices[draggedPoint].(y := vertices[draggedPoint].y - dy)];
        ghost var before := old(vertices);
        MeshValidKept(before, vertices, triangles, restmats);
        mouseX := x;
        mouseY := y;
      }
    }
  }

  /** Resetting and accumulating forces changes forces only. */
  lemma {:induction false} FrameOnlyForces(vs: seq<Vertex>, ts: seq<Triangle>, cs: seq<Contribution>, n: nat)
    requires n <= |ts| == |cs| && forall k :: 0 <= k < |ts| ==> Corners(|vs|, ts[k])
    ensures OnlyForces(vs, Accumulated(Reset(vs), ts, cs, n))
  {
    if n != 0 {
      FrameOnlyForces(vs, ts, cs, n - 1);
      var a := Accumulated(Reset(vs), ts, cs, n - 1);
      DistributeOnlyForces(a, ts[n - 1], cs[n - 1]);
      var b := Distribute(a, ts[n - 1], cs[n - 1]);
      OnlyForcesChain(vs, vs, a, b);
    } else {
      assert OnlyForces(vs, Reset(vs));
    }
  }

  /** Stepping moves vertices but keeps rest positions and masses; the skipped vertex is kept whole. */
  lemma IntegratedKeepsRest(vs: seq<Vertex>, skip: int)
    requires forall i :: 0 <= i < |vs| ==> vs[i].mass != 0.0
    ensures SameRest(vs, Integrated(vs, skip))
    ensures 0 <= skip < |vs| ==> Integrated(vs, skip)[skip] == vs[skip]
  {
  }

  lemma MeshValidCorners(vs: seq<Vertex>, ts: seq<Triangle>, rs: seq<RestMat>)
    requires MeshValid(vs, ts, rs)
    ensures forall k :: 0 <= k < |ts| ==> Corners(|vs|, ts[k])
  {
    forall k | 0 <= k < |ts|
      ensures Corners(|vs|, ts[k])
    {
      assert TriangleValid(vs, ts[k], rs[k]);
    }
  }

  /**
   * One frame of a valid mesh: the forced vertices all have mass, and after
   * stepping the mesh is still valid, has no net force, and a held vertex
   * has not moved.
   */
  lemma FrameValid(vs: seq<Vertex>, ts: seq<Triangle>, rs: seq<RestMat>, cs: seq<Contribution>, skip: int)
    requires MeshValid(vs, ts, rs) && |cs| == |ts|
    requires forall k :: 0 <= k < |ts| ==> Corners(|vs|, ts[k])
    ensures forall i :: 0 <= i < |vs| ==> Forced(vs, ts, cs)[i].mass != 0.0
    ensures MeshValid(Integrated(Forced(vs, ts, cs), skip), ts, rs)
    ensures NetForce(Integrated(Forced(vs, ts, cs), skip), true) == 0.0
    ensures NetForce(Integrated(Forced(vs, ts, cs), skip), false) == 0.0
    ensures 0 <= skip < |vs| ==> Integrated(Forced(vs, ts, cs), skip)[skip].x == vs[skip].x &&
                                  Integrated(Forced(vs, ts, cs), skip)[skip].y == vs[skip].y
  {
    var forced := Forced(vs, ts, cs);
    OnlyForcesKeepRest(vs, forced);
    var ws := Integrated(forced, skip);
    IntegratedKeepsForces(forced, skip, true);
    IntegratedKeepsForces(forced, skip, false);
    IntegratedKeepsRest(forced, skip);
    SameRestTrans(vs, forced, ws);
    MeshValidKept(vs, ws, ts, rs);
    if 0 <= skip < |vs| {
      assert forced[skip] == vs[skip].(fx := forced[skip].fx, fy := forced[skip].fy);
    }
  }

  lemma SameRestTrans(a: seq<Vertex>, b: seq<Vertex>, c: seq<Vertex>)
    requires SameRest(a, b) && SameRest(b, c)
    ensures SameRest(a, c)
  {
  }

  /** Stepping vertices leaves their forces as they were. */
  lemma IntegratedKeepsForces(vs: seq<Vertex>, skip: int, horizontal: bool)
    requires forall i :: 0 <= i < |vs| ==> vs[i].mass != 0.0
    ensures NetForce(Integrated(vs, skip), horizontal) == NetForce(vs, horizontal)
  {
    var ws := Integrated(vs, skip);
    assert forall i :: 0 <= i < |vs| ==> Force(ws[i], horizontal) == Force(vs[i], horizontal);
    SameForces(vs, ws, horizontal);
  }

  lemma {:induction false} SameForces(vs: seq<Vertex>, ws: seq<Vertex>, horizontal: bool)
    requires |vs| == |ws| && forall i :: 0 <= i < |vs| ==> Force(ws[i], horizontal) == Force(vs[i], horizontal)
    ensures NetForce(ws, horizontal) == NetForce(vs, horizontal)
    decreases |vs|
  {
    if vs != [] {
      SameForces(vs[..|vs| - 1], ws[..|ws| - 1], horizontal);
    }
  }
}
