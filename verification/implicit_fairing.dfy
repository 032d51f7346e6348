/**
 * Implicit fairing (hw5 implicit_fairing.cpp): one step of Laplacian
 * smoothing solves (I − h·F)·x' = x for each coordinate, where F is the
 * cotangent Laplacian of the halfedge mesh.
 *
 * F is kept as dense rows: row i − 1 belongs to vertex i and column j − 1 to
 * vertex j. The neighbour-area sum of a vertex (compute_sum_neighbor_area in
 * halfedge.h) and the sparse LU solver are parameters. The specification
 * functions read the vertex positions from a sequence ps (ps[i] is vertex i's
 * position), so that they do not change when index_vertices writes the index
 * fields, and the ring round each vertex is given as the list of its outgoing
 * halfedges in visiting order.
 */
module ImplicitFairing {
  import opened LinAlg
  import opened Halfedge

  /** The threshold below which a vertex's neighbour area counts as zero (10e-6 in the source, that is 0.00001). */
  const Epsilon: real := 0.00001

  // ---------------------------------------------------------------- index_vertices

  /** index_vertices has run: every real vertex carries its own position in the list as index. */
  ghost predicate Indexed(mesh: HalfedgeMesh)
    reads mesh, mesh.hevs
  {
    forall i :: 1 <= i < mesh.hevs.Length ==> mesh.hevs[i].index == i
  }

  /**
   * index_vertices: sets the index of each vertex i ≥ 1 to i, and touches
   * neither the NULL entry 0 nor any other field.
   */
  method IndexVertices(mesh: HalfedgeMesh)
    requires mesh.hevs.Length >= 1
    modifies mesh.hevs
    ensures Indexed(mesh)
    ensures mesh.hevs[0] == old(mesh.hevs[0])
    ensures forall i :: 1 <= i < mesh.hevs.Length ==> mesh.hevs[i] == old(mesh.hevs[i]).(index := i)
  {
    var a := mesh.hevs;
    var i := 1;
    while i < a.Length
      invariant 1 <= i <= a.Length && a[0] == old(a[0])
      invariant forall j :: 1 <= j < i ==> a[j] == old(a[j]).(index := j)
      invariant forall j :: i <= j < a.Length ==> a[j] == old(a[j])
    {
      a[i] := a[i].(index := i);
      i := i + 1;
    }
  }

  // ---------------------------------------------------------------- compute_cotan_sum

  /** The cotangent of the angle between a and b: their dot product over the length of their cross product. */
  function Cot(sqrt: real -> real, a: Vec3, b: Vec3): real
    requires Length3(sqrt, Cross3(a, b)) != 0.0
  {
    Dot3(a, b) / Length3(sqrt, Cross3(a, b))
  }

  /** The two triangles on edge ij are not degenerate, so both cotangents are defined. */
  predicate CotanDefined(sqrt: real -> real, i: Vec3, j: Vec3, pm: Vec3, pn: Vec3)
  {
    Length3(sqrt, Cross3(Sub3(i, pm), Sub3(j, pm))) != 0.0 && Length3(sqrt, Cross3(Sub3(i, pn), Sub3(j, pn))) != 0.0
  }

  /**
   * compute_cotan_sum: cot α + cot β for the angles at m and at n that face
   * the edge from i to j.
   */
  function CotanSum(sqrt: real -> real, i: Vec3, j: Vec3, pm: Vec3, pn: Vec3): real
    requires CotanDefined(sqrt, i, j, pm, pn)
  {
    Cot(sqrt, Sub3(i, pm), Sub3(j, pm)) + Cot(sqrt, Sub3(i, pn), Sub3(j, pn))
  }

  /** Swapping the two sides of the angle leaves its cotangent unchanged; a right angle has cotangent 0. */
  lemma CotSymmetric(sqrt: real -> real, a: Vec3, b: Vec3)
    requires Length3(sqrt, Cross3(a, b)) != 0.0
    ensures Length3(sqrt, Cross3(b, a)) != 0.0 && Cot(sqrt, b, a) == Cot(sqrt, a, b)
    ensures Dot3(a, b) == 0.0 ==> Cot(sqrt, a, b) == 0.0
  {
    var c := Cross3(a, b);
    var d := Cross3(b, a);
    assert d == Vec3(-c.x, -c.y, -c.z);
    assert Dot3(d, d) == Dot3(c, c);
  }

  /**
   * The cotangent weight belongs to the edge, not to the direction it is
   * walked in: exchanging i and j, or the two opposite vertices m and n,
   * gives the same sum.
   */
  lemma CotanSumSymmetric(sqrt: real -> real, i: Vec3, j: Vec3, pm: Vec3, pn: Vec3)
    requires CotanDefined(sqrt, i, j, pm, pn)
    ensures CotanDefined(sqrt, j, i, pm, pn) && CotanSum(sqrt, j, i, pm, pn) == CotanSum(sqrt, i, j, pm, pn)
    ensures CotanDefined(sqrt, i, j, pn, pm) && CotanSum(sqrt, i, j, pn, pm) == CotanSum(sqrt, i, j, pm, pn)
  {
    CotSymmetric(sqrt, Sub3(i, pm), Sub3(j, pm));
    CotSymmetric(sqrt, Sub3(i, pn), Sub3(j, pn));
  }

  // ---------------------------------------------------------------- sums of rows

  function Sum(s: seq<real>): real
  {
    if |s| == 0 then 0.0 else s[0] + Sum(s[1..])
  }

  function Zeros(n: nat): (z: seq<real>)
    ensures |z| == n && forall c :: 0 <= c < n ==> z[c] == 0.0
  {
    seq(n, c => 0.0)
  }

  lemma {:induction false} SumZeros(n: nat)
    ensures Sum(Zeros(n)) == 0.0
  {
    if n > 0 {
      assert Zeros(n)[1..] == Zeros(n - 1);
      SumZeros(n - 1);
    }
  }

  /** Changing one entry changes the sum by the difference. */
  lemma {:induction false} SumUpdate(s: seq<real>, p: nat, v: real)
    requires p < |s|
    ensures Sum(s[p := v]) == Sum(s) - s[p] + v
  {
    if p > 0 {
      assert s[p := v][1..] == s[1..][p - 1 := v];
      SumUpdate(s[1..], p - 1, v);
    } else {
      assert s[p := v][1..] == s[1..];
    }
  }

  // ---------------------------------------------------------------- filling one row

  /** No two entries are equal. */
  predicate Distinct(ns: seq<nat>)
  {
    |ns| == 0 || (ns[|ns| - 1] !in ns[..|ns| - 1] && Distinct(ns[..|ns| - 1]))
  }

  /** Distinct says that entries at two different positions differ. */
  lemma {:induction false} DistinctPairs(ns: seq<nat>)
    ensures Distinct(ns) <==> forall a, b :: 0 <= a < b < |ns| ==> ns[a] != ns[b]
    decreases |ns|
  {
    if |ns| > 0 {
      var ns' := ns[..|ns| - 1];
      DistinctPairs(ns');
      assert forall a :: 0 <= a < |ns'| ==> ns'[a] == ns[a];
    }
  }

  /** Every entry names a column 1 .. n. */
  predicate InColumns(n: nat, ns: seq<nat>)
  {
    forall u :: 0 <= u < |ns| ==> 1 <= ns[u] <= n
  }

  /** The sum in visiting order, as sum_cot_sum accumulates it. */
  function Total(cs: seq<real>): real
  {
    if |cs| == 0 then 0.0 else Total(cs[..|cs| - 1]) + cs[|cs| - 1]
  }

  /** A zero row of n entries after column ns[u] − 1 has received cs[u] / d, for each u in turn. */
  function Fill(n: nat, ns: seq<nat>, cs: seq<real>, d: real): (row: seq<real>)
    requires |ns| == |cs| && InColumns(n, ns) && d != 0.0
    ensures |row| == n
    decreases |ns|
  {
    if |ns| == 0 then Zeros(n)
    else Fill(n, ns[..|ns| - 1], cs[..|cs| - 1], d)[ns[|ns| - 1] - 1 := cs[|cs| - 1] / d]
  }

  /** One more insert: the prefix of length t + 1 adds column ns[t]'s weight to the prefix of length t, and cs[t] to its sum. */
  lemma FillPrefix(n: nat, ns: seq<nat>, cs: seq<real>, d: real, t: nat)
    requires |ns| == |cs| && InColumns(n, ns) && t < |ns| && d != 0.0
    ensures InColumns(n, ns[..t]) && InColumns(n, ns[..t + 1])
    ensures Fill(n, ns[..t + 1], cs[..t + 1], d) == Fill(n, ns[..t], cs[..t], d)[ns[t] - 1 := cs[t] / d]
    ensures Total(cs[..t + 1]) == Total(cs[..t]) + cs[t]
  {
    assert ns[..t + 1][..t] == ns[..t];
    assert cs[..t + 1][..t] == cs[..t];
  }

  /** The row and the running sum after the first t inserts, as the do-while has them. */
  function FillUpTo(n: nat, ns: seq<nat>, cs: seq<real>, d: real, t: nat): (r: (seq<real>, real))
    requires |ns| == |cs| && InColumns(n, ns) && t <= |ns| && d != 0.0
    ensures |r.0| == n
  {
    if t == 0 then (Zeros(n), 0.0)
    else
      var (row, sum) := FillUpTo(n, ns, cs, d, t - 1);
      (row[ns[t - 1] - 1 := cs[t - 1] / d], sum + cs[t - 1])
  }

  /** One more insert: the weight cs[t] over d goes into column ns[t] and onto the sum. */
  lemma FillUpToNext(n: nat, ns: seq<nat>, cs: seq<real>, d: real, t: nat, row: seq<real>, sum: real, j: nat, c: real)
    requires |ns| == |cs| && InColumns(n, ns) && t < |ns| && d != 0.0
    requires FillUpTo(n, ns, cs, d, t) == (row, sum) && j == ns[t] && c == cs[t]
    ensures 1 <= j <= |row| && FillUpTo(n, ns, cs, d, t + 1) == (row[j - 1 := c / d], sum + c)
  {
  }

  /** After all the inserts the row is Fill and the sum is Total. */
  lemma {:induction false} FillUpToAll(n: nat, ns: seq<nat>, cs: seq<real>, d: real, t: nat)
    requires |ns| == |cs| && InColumns(n, ns) && t <= |ns| && d != 0.0
    ensures InColumns(n, ns[..t])
    ensures FillUpTo(n, ns, cs, d, t) == (Fill(n, ns[..t], cs[..t], d), Total(cs[..t]))
    decreases t
  {
    if t > 0 {
      FillUpToAll(n, ns, cs, d, t - 1);
      FillPrefix(n, ns, cs, d, t - 1);
    }
  }

  /** A column that no entry of ns names stays zero. */
  lemma {:induction false} FillUntouched(n: nat, ns: seq<nat>, cs: seq<real>, d: real, c: nat)
    requires |ns| == |cs| && InColumns(n, ns) && c < n && d != 0.0
    requires forall u :: 0 <= u < |ns| ==> ns[u] != c + 1
    ensures Fill(n, ns, cs, d)[c] == 0.0
    decreases |ns|
  {
    if |ns| > 0 {
      FillUntouched(n, ns[..|ns| - 1], cs[..|cs| - 1], d, c);
    }
  }

  /** With distinct columns, column ns[t] − 1 holds cs[t] / d: no later insert overwrites it. */
  lemma {:induction false} FillEntry(n: nat, ns: seq<nat>, cs: seq<real>, d: real, t: nat)
    requires |ns| == |cs| && InColumns(n, ns) && Distinct(ns) && t < |ns| && d != 0.0
    ensures Fill(n, ns, cs, d)[ns[t] - 1] == cs[t] / d
    decreases |ns|
  {
    if t < |ns| - 1 {
      FillEntry(n, ns[..|ns| - 1], cs[..|cs| - 1], d, t);
    }
  }

  /** With distinct columns, the filled row sums to Σcs / d. */
  lemma {:induction false} FillSum(n: nat, ns: seq<nat>, cs: seq<real>, d: real)
    requires |ns| == |cs| && InColumns(n, ns) && Distinct(ns) && d != 0.0
    ensures Sum(Fill(n, ns, cs, d)) == Total(cs) / d
    decreases |ns|
  {
    if |ns| == 0 {
      SumZeros(n);
    } else {
      var ns', cs' := ns[..|ns| - 1], cs[..|cs| - 1];
      var x := ns[|ns| - 1];
      FillSum(n, ns', cs', d);
      FillUntouched(n, ns', cs', d, x - 1);
      SumUpdate(Fill(n, ns', cs', d), x - 1, cs[|cs| - 1] / d);
      DivAdd(Total(cs'), cs[|cs| - 1], d);
    }
  }

  lemma DivAdd(a: real, b: real, d: real)
    requires d != 0.0
    ensures a / d + b / d == (a + b) / d
  {
  }

  /**
   * Row i − 1 of F for a vertex with neighbours ns, cotangent weights cs and
   * divisor d = 2A: cs[u] / d in column ns[u] − 1 and −Σcs / d on the diagonal.
   */
  function RingRow(n: nat, i: nat, ns: seq<nat>, cs: seq<real>, d: real): (row: seq<real>)
    requires |ns| == |cs| && InColumns(n, ns) && 1 <= i <= n && d != 0.0
    ensures |row| == n
  {
    Fill(n, ns, cs, d)[i - 1 := -Total(cs) / d]
  }

  /** The diagonal cancels the neighbour weights: the row sums to zero. */
  lemma {:induction false} RingRowSum(n: nat, i: nat, ns: seq<nat>, cs: seq<real>, d: real)
    requires |ns| == |cs| && InColumns(n, ns) && 1 <= i <= n && Distinct(ns) && d != 0.0
    requires i !in ns
    ensures Sum(RingRow(n, i, ns, cs, d)) == 0.0
  {
    FillSum(n, ns, cs, d);
    FillUntouched(n, ns, cs, d, i - 1);
    SumUpdate(Fill(n, ns, cs, d), i - 1, -Total(cs) / d);
    DivAdd(Total(cs), -Total(cs), d);
  }

  /**
   * Every entry of the row: the weight of the neighbour in its column, the
   * negated total on the diagonal, and zero in every other column.
   */
  lemma {:induction false} RingRowEntries(n: nat, i: nat, ns: seq<nat>, cs: seq<real>, d: real)
    requires |ns| == |cs| && InColumns(n, ns) && 1 <= i <= n && Distinct(ns) && d != 0.0
    requires i !in ns
    ensures forall t :: 0 <= t < |ns| ==> RingRow(n, i, ns, cs, d)[ns[t] - 1] == cs[t] / d
    ensures RingRow(n, i, ns, cs, d)[i - 1] == -Total(cs) / d
    ensures forall c :: 0 <= c < n && c != i - 1 && c + 1 !in ns ==> RingRow(n, i, ns, cs, d)[c] == 0.0
  {
    forall t | 0 <= t < |ns|
      ensures RingRow(n, i, ns, cs, d)[ns[t] - 1] == cs[t] / d
    {
      FillEntry(n, ns, cs, d, t);
    }
    forall c | 0 <= c < n && c != i - 1 && c + 1 !in ns
      ensures RingRow(n, i, ns, cs, d)[c] == 0.0
    {
      FillUntouched(n, ns, cs, d, c);
    }
  }

  /** Writing −sum / d on the diagonal after all the inserts gives the ring row. */
  lemma RingRowFromFill(n: nat, i: nat, ns: seq<nat>, cs: seq<real>, d: real, row: seq<real>, sum: real)
    requires |ns| == |cs| && InColumns(n, ns) && 1 <= i <= n && d != 0.0
    requires (row, sum) == FillUpTo(n, ns, cs, d, |ns|)
    ensures row[i - 1 := -sum / d] == RingRow(n, i, ns, cs, d)
  {
    FillUpToAll(n, ns, cs, d, |ns|);
    assert ns[..|ns|] == ns && cs[..|cs|] == cs;
  }

  /** With distinct columns other than the diagonal, column ns[t] − 1 of the ring row holds cs[t] / d. */
  lemma RingRowAt(n: nat, i: nat, ns: seq<nat>, cs: seq<real>, d: real, t: nat)
    requires |ns| == |cs| && InColumns(n, ns) && 1 <= i <= n && Distinct(ns) && d != 0.0
    requires t < |ns| && ns[t] != i
    ensures RingRow(n, i, ns, cs, d)[ns[t] - 1] == cs[t] / d
  {
    FillEntry(n, ns, cs, d, t);
  }

  // ---------------------------------------------------------------- the ring of a vertex

  /** Positions ps for vertices 0 .. |ps| − 1, and halfedges that stay inside the list and point to real vertices. */
  predicate Placed(hes: seq<He>, ps: seq<Vec3>)
  {
    |ps| >= 1 && Closed(hes) && PointsInto(hes, |ps|)
  }

  /** The vertex he->next->vertex, that is, the neighbour j that halfedge e leads to. */
  function Neighbour(hes: seq<He>, e: nat): nat
    requires Closed(hes) && e < |hes|
  {
    hes[hes[e].next].vertex
  }

  /** The four vertices compute_cotan_sum is given for halfedge e: i, j, m and n. */
  function Quad(hes: seq<He>, e: nat): (nat, nat, nat, nat)
    requires Closed(hes) && e < |hes|
  {
    (hes[e].vertex, hes[hes[e].next].vertex, hes[hes[hes[hes[e].flip].next].next].vertex, hes[hes[hes[e].next].next].vertex)
  }

  /** Neither triangle on the edge of halfedge e is degenerate. */
  predicate CotDefinedAt(sqrt: real -> real, hes: seq<He>, ps: seq<Vec3>, e: nat)
    requires Placed(hes, ps) && e < |hes|
  {
    var (i, j, a, b) := Quad(hes, e);
    CotanDefined(sqrt, ps[i], ps[j], ps[a], ps[b])
  }

  /** The cotangent weight of the edge halfedge e runs along. */
  function CotAt(sqrt: real -> real, hes: seq<He>, ps: seq<Vec3>, e: nat): real
    requires Placed(hes, ps) && e < |hes| && CotDefinedAt(sqrt, hes, ps, e)
  {
    var (i, j, a, b) := Quad(hes, e);
    CotanSum(sqrt, ps[i], ps[j], ps[a], ps[b])
  }

  /**
   * The halfedges es leave one vertex and go round it: each is followed by
   * he->flip->next of it, the last by es[0] again, and es[0] does not come
   * back before that.
   */
  predicate RingSeq(hes: seq<He>, es: seq<nat>)
  {
    Closed(hes) && |es| >= 1 &&
    (forall u :: 0 <= u < |es| ==> es[u] < |hes|) &&
    (forall u :: 0 < u < |es| ==> es[u] != es[0]) &&
    (forall u :: 0 <= u < |es| ==> Linked(hes, es, u))
  }

  /** Going on from es[u] by he->flip->next reaches the entry after it, or es[0] from the last. */
  predicate Linked(hes: seq<He>, es: seq<nat>, u: nat)
  {
    Closed(hes) && u < |es| && es[u] < |hes| &&
    NextOut(hes, es[u]) == if u + 1 < |es| then es[u + 1] else es[0]
  }

  /** The ring es is the walk of the halfedge mesh: es[u] is u steps from es[0], and the walk closes after |es| steps. */
  lemma {:induction false} RingSeqIsRing(mesh: HalfedgeMesh, es: seq<nat>, u: nat)
    requires mesh.LinksValid() && RingSeq(mesh.hes, es) && u <= |es|
    ensures u < |es| ==> mesh.Walk(es[0], u) == es[u]
    ensures u == |es| ==> mesh.IsRing(es[0], |es|)
    decreases u
  {
    if u > 0 {
      RingSeqIsRing(mesh, es, u - 1);
      assert Linked(mesh.hes, es, u - 1);
      if u == |es| {
        forall j | 1 <= j < |es|
          ensures mesh.Walk(es[0], j) != es[0]
        {
          RingSeqIsRing(mesh, es, j);
        }
      }
    }
  }

  /** The neighbour each halfedge of the ring leads to, in visiting order. */
  function Neighbours(hes: seq<He>, nv: nat, es: seq<nat>): (ns: seq<nat>)
    requires nv >= 1 && Closed(hes) && PointsInto(hes, nv) && forall u :: 0 <= u < |es| ==> es[u] < |hes|
    ensures |ns| == |es| && InColumns(nv - 1, ns)
  {
    if |es| == 0 then [] else [Neighbour(hes, es[0])] + Neighbours(hes, nv, es[1..])
  }

  /** Entry u of Neighbours is the neighbour es[u] leads to. */
  lemma {:induction false} NeighboursAt(hes: seq<He>, nv: nat, es: seq<nat>, u: nat)
    requires nv >= 1 && Closed(hes) && PointsInto(hes, nv) && (forall u :: 0 <= u < |es| ==> es[u] < |hes|) && u < |es|
    ensures Neighbours(hes, nv, es)[u] == Neighbour(hes, es[u])
    decreases u
  {
    if u > 0 {
      NeighboursAt(hes, nv, es[1..], u - 1);
    }
  }

  /** The cotangent weight of each edge of the ring, in visiting order. */
  /** Both cotangents are defined on the edge of every halfedge of es. */
  predicate CotsDefined(sqrt: real -> real, hes: seq<He>, ps: seq<Vec3>, es: seq<nat>)
    requires Placed(hes, ps) && forall u :: 0 <= u < |es| ==> es[u] < |hes|
  {
    |es| == 0 || (CotDefinedAt(sqrt, hes, ps, es[0]) && CotsDefined(sqrt, hes, ps, es[1..]))
  }

  function Cots(sqrt: real -> real, hes: seq<He>, ps: seq<Vec3>, es: seq<nat>): (cs: seq<real>)
    requires Placed(hes, ps) && (forall u :: 0 <= u < |es| ==> es[u] < |hes|) && CotsDefined(sqrt, hes, ps, es)
    ensures |cs| == |es|
  {
    if |es| == 0 then [] else [CotAt(sqrt, hes, ps, es[0])] + Cots(sqrt, hes, ps, es[1..])
  }

  /** Entry u of Cots is the cotangent weight of es[u]'s edge. */
  lemma {:induction false} CotsAt(sqrt: real -> real, hes: seq<He>, ps: seq<Vec3>, es: seq<nat>, u: nat)
    requires Placed(hes, ps) && (forall u :: 0 <= u < |es| ==> es[u] < |hes|) && CotsDefined(sqrt, hes, ps, es)
    requires u < |es|
    ensures CotDefinedAt(sqrt, hes, ps, es[u]) && Cots(sqrt, hes, ps, es)[u] == CotAt(sqrt, hes, ps, es[u])
    decreases u
  {
    if u > 0 {
      CotsAt(sqrt, hes, ps, es[1..], u - 1);
    }
  }

  /**
   * Row i of F can be built from the ring es: every cotangent on it is
   * defined, and the neighbours are distinct and differ from i (so each
   * insert hits an empty entry, as Eigen's insert demands).
   */
  predicate RowReady(sqrt: real -> real, hes: seq<He>, ps: seq<Vec3>, i: nat, es: seq<nat>)
  {
    Placed(hes, ps) && RingSeq(hes, es) &&
    CotsDefined(sqrt, hes, ps, es) &&
    Distinct(Neighbours(hes, |ps|, es)) &&
    i !in Neighbours(hes, |ps|, es)
  }

  /**
   * Row i − 1 of F: all zero when the neighbour area is at most epsilon;
   * otherwise the ring row of i's neighbours with divisor 2A.
   */
  function RowOf(sqrt: real -> real, hes: seq<He>, ps: seq<Vec3>, i: nat, es: seq<nat>, area: real): (row: seq<real>)
    requires Placed(hes, ps) && 1 <= i < |ps|
    requires area > Epsilon ==> RowReady(sqrt, hes, ps, i, es)
    ensures |row| == |ps| - 1
  {
    if area <= Epsilon then Zeros(|ps| - 1)
    else RingRow(|ps| - 1, i, Neighbours(hes, |ps|, es), Cots(sqrt, hes, ps, es), 2.0 * area)
  }

  /** Above epsilon, row i − 1 of F is the ring row of i's neighbours and their cotangent weights, with divisor 2A. */
  lemma RowOfRing(sqrt: real -> real, hes: seq<He>, ps: seq<Vec3>, i: nat, es: seq<nat>, area: real)
    requires Placed(hes, ps) && 1 <= i < |ps| && area > Epsilon && RowReady(sqrt, hes, ps, i, es)
    ensures RowOf(sqrt, hes, ps, i, es, area) == RingRow(|ps| - 1, i, Neighbours(hes, |ps|, es), Cots(sqrt, hes, ps, es), 2.0 * area)
  {
  }

  /** Every row of F sums to zero. */
  lemma {:induction false} RowSumsToZero(sqrt: real -> real, hes: seq<He>, ps: seq<Vec3>, i: nat, es: seq<nat>, area: real)
    requires Placed(hes, ps) && 1 <= i < |ps|
    requires area > Epsilon ==> RowReady(sqrt, hes, ps, i, es)
    ensures Sum(RowOf(sqrt, hes, ps, i, es, area)) == 0.0
  {
    if area <= Epsilon {
      SumZeros(|ps| - 1);
    } else {
      RowOfRing(sqrt, hes, ps, i, es, area);
      RingRowSum(|ps| - 1, i, Neighbours(hes, |ps|, es), Cots(sqrt, hes, ps, es), 2.0 * area);
    }
  }

  // ---------------------------------------------------------------- build_F_operator

  /** The vertex records vs hold the positions ps, and index_vertices has numbered every real vertex. */
  predicate Numbered(vs: seq<Hev>, ps: seq<Vec3>)
  {
    |vs| == |ps| && forall v :: 0 <= v < |vs| ==> vs[v].pos == ps[v] && (v >= 1 ==> vs[v].index == v)
  }

  /**
   * One row of build_F_operator's loop for vertex i, whose neighbour area
   * is `area`: nothing when the area is at most epsilon; otherwise the
   * do-while over the ring es from hev->out inserts each neighbour's
   * weight, then the diagonal.
   */
  method BuildRow(sqrt: real -> real, hs: seq<He>, vs: seq<Hev>, ghost ps: seq<Vec3>, i: nat, area: real, ghost es: seq<nat>)
    returns (row: seq<real>)
    requires Placed(hs, ps) && Numbered(vs, ps) && 1 <= i < |vs|
    requires area > Epsilon ==> RowReady(sqrt, hs, ps, i, es) && es[0] == vs[i].out
    ensures row == RowOf(sqrt, hs, ps, i, es, area)
  {
    var n := |vs| - 1;
    row := Zeros(n);
    if area <= Epsilon {
      return;
    }
    var sumCot;
    row, sumCot := WalkRing(sqrt, hs, vs, ps, i, area, es);
    RowClosed(sqrt, hs, ps, i, es, area, row, sumCot);
    row := row[i - 1 := -sumCot / (2.0 * area)];
  }

  /**
   * The do-while of build_F_operator round vertex i: from hev->out, insert
   * each neighbour's weight over 2A into its column and add the weight to
   * the running sum, until the walk is back at hev->out.
   */
  method WalkRing(sqrt: real -> real, hs: seq<He>, vs: seq<Hev>, ghost ps: seq<Vec3>, i: nat, area: real, ghost es: seq<nat>)
    returns (row: seq<real>, sumCot: real)
    requires Placed(hs, ps) && Numbered(vs, ps) && 1 <= i < |vs|
    requires area > Epsilon && RingSeq(hs, es) && CotsDefined(sqrt, hs, ps, es) && es[0] == vs[i].out
    ensures (row, sumCot) == FillUpTo(|ps| - 1, Neighbours(hs, |ps|, es), Cots(sqrt, hs, ps, es), 2.0 * area, |es|)
  {
    var n := |vs| - 1;
    row := Zeros(n);
    ghost var ns, cs := Neighbours(hs, |ps|, es), Cots(sqrt, hs, ps, es);
    var out := vs[i].out;
    var he := out;
    sumCot := 0.0;
    var first := true;
    ghost var t := 0;
    while first || he != out
      invariant 0 <= t <= |es| && (first <==> t == 0) && he == if t < |es| then es[t] else es[0]
      invariant (row, sumCot) == FillUpTo(n, ns, cs, 2.0 * area, t)
      decreases |es| - t
    {
      first := false;
      row, sumCot, he := InsertNeighbour(sqrt, hs, vs, ps, i, area, es, ns, cs, t, he, row, sumCot);
      t := t + 1;
    }
    assert t == |es|;
  }

  /**
   * One pass of the do-while at he = es[t]: insert the neighbour's weight
   * over 2A into its column, add the weight to the sum and move to
   * he->flip->next.
   */
  method InsertNeighbour(sqrt: real -> real, hs: seq<He>, vs: seq<Hev>, ghost ps: seq<Vec3>, i: nat, area: real,
                         ghost es: seq<nat>, ghost ns: seq<nat>, ghost cs: seq<real>, ghost t: nat, he: int,
                         row: seq<real>, sumCot: real)
    returns (row': seq<real>, sumCot': real, next: int)
    requires Placed(hs, ps) && Numbered(vs, ps) && 1 <= i < |vs|
    requires area > Epsilon && RingSeq(hs, es) && CotsDefined(sqrt, hs, ps, es) && t < |es| && he == es[t]
    requires ns == Neighbours(hs, |ps|, es) && cs == Cots(sqrt, hs, ps, es)
    requires (row, sumCot) == FillUpTo(|ps| - 1, ns, cs, 2.0 * area, t)
    ensures (row', sumCot') == FillUpTo(|ps| - 1, ns, cs, 2.0 * area, t + 1)
    ensures next == if t + 1 < |es| then es[t + 1] else es[0]
  {
    var j, cot;
    j, cot, next := RingStep(sqrt, hs, vs, ps, i, es, t, he);
    FillUpToNext(|ps| - 1, ns, cs, 2.0 * area, t, row, sumCot, j, cot);
    sumCot' := sumCot + cot;
    row' := row[j - 1 := cot / (2.0 * area)];
  }

  /**
   * The body of the do-while for he = es[t]: the index of the neighbour
   * he->next->vertex, the cotangent weight of the edge, and he->flip->next.
   */
  method RingStep(sqrt: real -> real, hs: seq<He>, vs: seq<Hev>, ghost ps: seq<Vec3>, i: nat, ghost es: seq<nat>, ghost t: int, he: int)
    returns (j: int, cot: real, next: int)
    requires Placed(hs, ps) && Numbered(vs, ps) && 1 <= i < |vs|
    requires RingSeq(hs, es) && CotsDefined(sqrt, hs, ps, es) && 0 <= t < |es| && he == es[t]
    ensures j == Neighbours(hs, |ps|, es)[t] && cot == Cots(sqrt, hs, ps, es)[t]
    ensures next == if t + 1 < |es| then es[t + 1] else es[0]
  {
    CotsAt(sqrt, hs, ps, es, t);
    NeighboursAt(hs, |ps|, es, t);
    j := vs[hs[hs[he].next].vertex].index;
    cot := CotanSum(sqrt, vs[hs[he].vertex].pos, vs[hs[hs[he].next].vertex].pos,
                    vs[hs[hs[hs[hs[he].flip].next].next].vertex].pos,
                    vs[hs[hs[hs[he].next].next].vertex].pos);
    assert Linked(hs, es, t);
    next := hs[hs[he].flip].next;
  }

  /** Once the walk is back at hev->out, writing the diagonal completes the row. */
  lemma RowClosed(sqrt: real -> real, hes: seq<He>, ps: seq<Vec3>, i: nat, es: seq<nat>, area: real, row: seq<real>, sumCot: real)
    requires Placed(hes, ps) && 1 <= i < |ps| && area > Epsilon && RowReady(sqrt, hes, ps, i, es)
    requires (row, sumCot) == FillUpTo(|ps| - 1, Neighbours(hes, |ps|, es), Cots(sqrt, hes, ps, es), 2.0 * area, |es|)
    ensures row[i - 1 := -sumCot / (2.0 * area)] == RowOf(sqrt, hes, ps, i, es, area)
  {
    RingRowFromFill(|ps| - 1, i, Neighbours(hes, |ps|, es), Cots(sqrt, hes, ps, es), 2.0 * area, row, sumCot);
    RowOfRing(sqrt, hes, ps, i, es, area);
  }

  /** Row r of the n × n identity. */
  function UnitRow(n: nat, r: nat): (u: seq<real>)
    ensures |u| == n && forall c :: 0 <= c < n ==> u[c] == if c == r then 1.0 else 0.0
  {
    seq(n, c => if c == r then 1.0 else 0.0)
  }

  /** u − h·v, entry by entry. */
  function Combine(u: seq<real>, v: seq<real>, h: real): (w: seq<real>)
    requires |u| == |v|
    ensures |w| == |u| && forall c :: 0 <= c < |u| ==> w[c] == u[c] - h * v[c]
  {
    seq(|u|, c requires 0 <= c < |u| => u[c] - h * v[c])
  }

  /** The operator I − h·F for the rows f of F. */
  function Operator(f: seq<seq<real>>, h: real): (op: seq<seq<real>>)
    ensures |op| == |f|
    ensures forall r :: 0 <= r < |f| ==> op[r] == Combine(UnitRow(|f[r]|, r), f[r], h)
  {
    seq(|f|, r requires 0 <= r < |f| => Combine(UnitRow(|f[r]|, r), f[r], h))
  }

  /** A row of I − h·F sums to 1 when the row of F sums to 0 and has the diagonal in range. */
  lemma {:induction false} OperatorRowSum(row: seq<real>, h: real, r: nat)
    requires r < |row| && Sum(row) == 0.0
    ensures Sum(Combine(UnitRow(|row|, r), row, h)) == 1.0
  {
    SumCombine(UnitRow(|row|, r), row, h);
    SumUnit(|row|, r);
  }

  lemma {:induction false} SumCombine(u: seq<real>, v: seq<real>, h: real)
    requires |u| == |v|
    ensures Sum(Combine(u, v, h)) == Sum(u) - h * Sum(v)
    decreases |u|
  {
    if |u| > 0 {
      var w := Combine(u, v, h);
      forall c | 0 <= c < |u| - 1
        ensures w[1..][c] == Combine(u[1..], v[1..], h)[c]
      {
      }
      assert w[1..] == Combine(u[1..], v[1..], h);
      SumCombine(u[1..], v[1..], h);
      assert h * Sum(v) == h * v[0] + h * Sum(v[1..]);
    }
  }

  lemma {:induction false} SumUnit(n: nat, r: nat)
    requires r < n
    ensures Sum(UnitRow(n, r)) == 1.0
  {
    assert UnitRow(n, r) == Zeros(n)[r := 1.0];
    SumZeros(n);
    SumUpdate(Zeros(n), r, 1.0);
  }

  /** Every vertex whose neighbour area exceeds epsilon has a ring from which its row can be built. */
  predicate RowsReady(sqrt: real -> real, hes: seq<He>, ps: seq<Vec3>, rings: seq<seq<nat>>, areas: seq<real>)
  {
    Placed(hes, ps) && |rings| == |ps| && |areas| == |ps| &&
    forall v :: 1 <= v < |ps| && areas[v] > Epsilon ==> RowReady(sqrt, hes, ps, v, rings[v])
  }

  /** The rows of F for vertices 1 .. t. */
  function FRows(sqrt: real -> real, hes: seq<He>, ps: seq<Vec3>, rings: seq<seq<nat>>, areas: seq<real>, t: nat): (f: seq<seq<real>>)
    requires RowsReady(sqrt, hes, ps, rings, areas) && t < |ps|
    ensures |f| == t
    ensures forall r :: 0 <= r < t ==> f[r] == RowOf(sqrt, hes, ps, r + 1, rings[r + 1], areas[r + 1])
  {
    if t == 0 then []
    else FRows(sqrt, hes, ps, rings, areas, t - 1) + [RowOf(sqrt, hes, ps, t, rings[t], areas[t])]
  }

  /** I − h·F for the whole mesh. */
  function FairingOperator(sqrt: real -> real, hes: seq<He>, ps: seq<Vec3>, rings: seq<seq<nat>>, h: real, areas: seq<real>)
    : (op: seq<seq<real>>)
    requires RowsReady(sqrt, hes, ps, rings, areas)
    ensures |op| == |ps| - 1
  {
    Operator(FRows(sqrt, hes, ps, rings, areas, |ps| - 1), h)
  }

  /** Every row of I − h·F sums to one. */
  lemma {:induction false} OperatorRowsSumToOne(sqrt: real -> real, hes: seq<He>, ps: seq<Vec3>, rings: seq<seq<nat>>, h: real, areas: seq<real>)
    requires RowsReady(sqrt, hes, ps, rings, areas)
    ensures forall r :: 0 <= r < |ps| - 1 ==> Sum(FairingOperator(sqrt, hes, ps, rings, h, areas)[r]) == 1.0
  {
    var f := FRows(sqrt, hes, ps, rings, areas, |ps| - 1);
    forall r | 0 <= r < |ps| - 1
      ensures Sum(FairingOperator(sqrt, hes, ps, rings, h, areas)[r]) == 1.0
    {
      RowSumsToZero(sqrt, hes, ps, r + 1, rings[r + 1], areas[r + 1]);
      OperatorRowSum(f[r], h, r);
    }
  }

  /**
   * build_F_operator: one row per vertex 1 .. n − 1, built as above, and
   * the result I − h·F.
   */
  method BuildFOperator(sqrt: real -> real, mesh: HalfedgeMesh, ghost ps: seq<Vec3>, ghost rings: seq<seq<nat>>, h: real, areas: seq<real>)
    returns (op: seq<seq<real>>)
    requires mesh.Valid() && Indexed(mesh) && RowsReady(sqrt, mesh.hes, ps, rings, areas) && |ps| == mesh.hevs.Length
    requires forall v :: 0 <= v < mesh.hevs.Length ==> mesh.hevs[v].pos == ps[v]
    requires forall v :: 1 <= v < mesh.hevs.Length && areas[v] > Epsilon ==> rings[v][0] == mesh.hevs[v].out
    ensures op == FairingOperator(sqrt, mesh.hes, ps, rings, h, areas)
  {
    var hs, vs := mesh.hes, mesh.hevs[..];
    var f := [];
    var i := 1;
    while i < |vs|
      invariant 1 <= i <= |vs| && f == FRows(sqrt, hs, ps, rings, areas, i - 1)
    {
      var row := BuildRow(sqrt, hs, vs, ps, i, areas[i], rings[i]);
      f := f + [row];
      i := i + 1;
    }
    op := Operator(f, h);
  }

  // ---------------------------------------------------------------- solve

  function Dot(u: seq<real>, v: seq<real>): real
    requires |u| == |v|
  {
    if |u| == 0 then 0.0 else u[0] * v[0] + Dot(u[1..], v[1..])
  }

  /** The product of the square matrix a with the vector x. */
  function MatVec(a: seq<seq<real>>, x: seq<real>): (y: seq<real>)
    requires forall r :: 0 <= r < |a| ==> |a[r]| == |x|
    ensures |y| == |a| && forall r :: 0 <= r < |a| ==> y[r] == Dot(a[r], x)
  {
    seq(|a|, r requires 0 <= r < |a| => Dot(a[r], x))
  }

  /** x solves a·x = b. */
  ghost predicate Solves(a: seq<seq<real>>, x: seq<real>, b: seq<real>)
  {
    (forall r :: 0 <= r < |a| ==> |a[r]| == |x|) && MatVec(a, x) == b
  }

  /** The sparse LU solver returns a vector as long as the right-hand side. */
  ghost predicate KeepsLength(solver: (seq<seq<real>>, seq<real>) -> seq<real>)
  {
    forall a, b :: |solver(a, b)| == |b|
  }

  /** One coordinate of every real vertex: entry r is that coordinate of vertex r + 1. */
  function Coordinates(ps: seq<Vec3>, axis: nat): (col: seq<real>)
    requires |ps| >= 1
    ensures |col| == |ps| - 1
    ensures forall r :: 0 <= r < |col| ==> col[r] == if axis == 0 then ps[r + 1].x else if axis == 1 then ps[r + 1].y else ps[r + 1].z
  {
    seq(|ps| - 1, r requires 0 <= r < |ps| - 1 => if axis == 0 then ps[r + 1].x else if axis == 1 then ps[r + 1].y else ps[r + 1].z)
  }

  /** The smoothed positions of vertices 1 .. n − 1: entry r is vertex r + 1's new position. */
  function Faired(sqrt: real -> real, hes: seq<He>, ps: seq<Vec3>, rings: seq<seq<nat>>, h: real, areas: seq<real>,
                  solver: (seq<seq<real>>, seq<real>) -> seq<real>): (qs: seq<Vec3>)
    requires RowsReady(sqrt, hes, ps, rings, areas) && KeepsLength(solver)
    ensures |qs| == |ps| - 1
  {
    SolveWith(FairingOperator(sqrt, hes, ps, rings, h, areas), ps, solver)
  }

  /** Each coordinate of vertices 1 .. n − 1 solved with the operator op, read back as points. */
  function SolveWith(op: seq<seq<real>>, ps: seq<Vec3>, solver: (seq<seq<real>>, seq<real>) -> seq<real>): (qs: seq<Vec3>)
    requires |ps| >= 1 && KeepsLength(solver)
    ensures |qs| == |ps| - 1
  {
    Points(solver(op, Coordinates(ps, 0)), solver(op, Coordinates(ps, 1)), solver(op, Coordinates(ps, 2)))
  }

  /** The points whose coordinates are read from the three columns. */
  function Points(xs: seq<real>, ys: seq<real>, zs: seq<real>): (qs: seq<Vec3>)
    requires |xs| == |ys| == |zs|
    ensures |qs| == |xs| && forall r :: 0 <= r < |xs| ==> qs[r] == Vec3(xs[r], ys[r], zs[r])
  {
    seq(|xs|, r requires 0 <= r < |xs| => Vec3(xs[r], ys[r], zs[r]))
  }

  /**
   * solve: indexes the vertices, builds I − h·F, solves it once per
   * coordinate and writes the results back. Every real vertex ends with
   * its smoothed position and its index; the NULL entry is untouched.
   */
  method Solve(sqrt: real -> real, mesh: HalfedgeMesh, ghost ps: seq<Vec3>, ghost rings: seq<seq<nat>>, h: real, areas: seq<real>,
               solver: (seq<seq<real>>, seq<real>) -> seq<real>)
    requires mesh.Valid() && KeepsLength(solver) && RowsReady(sqrt, mesh.hes, ps, rings, areas) && |ps| == mesh.hevs.Length
    requires forall v :: 0 <= v < mesh.hevs.Length ==> mesh.hevs[v].pos == ps[v]
    requires forall v :: 1 <= v < mesh.hevs.Length && areas[v] > Epsilon ==> rings[v][0] == mesh.hevs[v].out
    modifies mesh.hevs
    ensures mesh.hevs[0] == old(mesh.hevs[0])
    ensures forall v :: 1 <= v < mesh.hevs.Length ==>
      mesh.hevs[v] == old(mesh.hevs[v]).(pos := Faired(sqrt, mesh.hes, ps, rings, h, areas, solver)[v - 1], index := v)
  {
    IndexVertices(mesh);
    var op := BuildFOperator(sqrt, mesh, ps, rings, h, areas);
    var rhoX, rhoY, rhoZ := GatherCoordinates(mesh, ps);
    var phiX, phiY, phiZ := solver(op, rhoX), solver(op, rhoY), solver(op, rhoZ);
    WriteBack(mesh, phiX, phiY, phiZ);
  }

  /** The first loop of solve: the x, y and z coordinates of vertices 1 .. n − 1, as the three right-hand sides. */
  method GatherCoordinates(mesh: HalfedgeMesh, ghost ps: seq<Vec3>) returns (rhoX: seq<real>, rhoY: seq<real>, rhoZ: seq<real>)
    requires |ps| == mesh.hevs.Length >= 1 && forall v :: 0 <= v < mesh.hevs.Length ==> mesh.hevs[v].pos == ps[v]
    ensures rhoX == Coordinates(ps, 0) && rhoY == Coordinates(ps, 1) && rhoZ == Coordinates(ps, 2)
  {
    var size := mesh.hevs.Length - 1;
    rhoX, rhoY, rhoZ := Zeros(size), Zeros(size), Zeros(size);
    var i := 1;
    while i < mesh.hevs.Length
      invariant 1 <= i <= mesh.hevs.Length && |rhoX| == |rhoY| == |rhoZ| == size
      invariant forall r :: 0 <= r < i - 1 ==> rhoX[r] == ps[r + 1].x && rhoY[r] == ps[r + 1].y && rhoZ[r] == ps[r + 1].z
    {
      rhoX := rhoX[i - 1 := mesh.hevs[i].pos.x];
      rhoY := rhoY[i - 1 := mesh.hevs[i].pos.y];
      rhoZ := rhoZ[i - 1 := mesh.hevs[i].pos.z];
      i := i + 1;
    }
  }

  /** The second loop of solve: vertex i ≥ 1 takes (x[i − 1], y[i − 1], z[i − 1]) as its position; nothing else changes. */
  method WriteBack(mesh: HalfedgeMesh, xs: seq<real>, ys: seq<real>, zs: seq<real>)
    requires |xs| == |ys| == |zs| == mesh.hevs.Length - 1
    modifies mesh.hevs
    ensures mesh.hevs[0] == old(mesh.hevs[0])
    ensures forall v :: 1 <= v < mesh.hevs.Length ==> mesh.hevs[v] == old(mesh.hevs[v]).(pos := Points(xs, ys, zs)[v - 1])
  {
    var i := 1;
    while i < mesh.hevs.Length
      invariant 1 <= i <= mesh.hevs.Length && mesh.hevs[0] == old(mesh.hevs[0])
      invariant forall v :: 1 <= v < i ==> mesh.hevs[v] == old(mesh.hevs[v]).(pos := Points(xs, ys, zs)[v - 1])
      invariant forall v :: i <= v < mesh.hevs.Length ==> mesh.hevs[v] == old(mesh.hevs[v])
    {
      mesh.hevs[i] := mesh.hevs[i].(pos := Vec3(xs[i - 1], ys[i - 1], zs[i - 1]));
      i := i + 1;
    }
  }

  // ---------------------------------------------------------------- what the smoothing keeps

  /** x + c in every entry. */
  function Shift(x: seq<real>, c: real): (y: seq<real>)
    ensures |y| == |x| && forall r :: 0 <= r < |x| ==> y[r] == x[r] + c
  {
    seq(|x|, r requires 0 <= r < |x| => x[r] + c)
  }

  lemma {:induction false} DotShift(u: seq<real>, x: seq<real>, c: real)
    requires |u| == |x|
    ensures Dot(u, Shift(x, c)) == Dot(u, x) + c * Sum(u)
    decreases |u|
  {
    if |u| > 0 {
      assert Shift(x, c)[1..] == Shift(x[1..], c);
      DotShift(u[1..], x[1..], c);
      assert u[0] * (x[0] + c) == u[0] * x[0] + c * u[0];
      assert c * Sum(u) == c * u[0] + c * Sum(u[1..]);
    }
  }

  /**
   * Since every row of I − h·F sums to one, moving every vertex by the same
   * amount moves the exact solution by that amount: smoothing commutes with
   * translation.
   */
  lemma {:induction false} TranslationCommutes(a: seq<seq<real>>, x: seq<real>, b: seq<real>, c: real)
    requires Solves(a, x, b) && forall r :: 0 <= r < |a| ==> Sum(a[r]) == 1.0
    ensures Solves(a, Shift(x, c), Shift(b, c))
  {
    forall r | 0 <= r < |a|
      ensures Dot(a[r], Shift(x, c)) == b[r] + c
    {
      DotShift(a[r], x, c);
    }
  }

  /** A row with a single one, in column r (none when r is out of range), picks entry r. */
  lemma {:induction false} DotPick(u: seq<real>, x: seq<real>, r: int)
    requires |u| == |x| && forall c :: 0 <= c < |u| ==> u[c] == if c == r then 1.0 else 0.0
    ensures Dot(u, x) == if 0 <= r < |u| then x[r] else 0.0
    decreases |u|
  {
    if |u| > 0 {
      DotPick(u[1..], x[1..], r - 1);
    }
  }

  /** The solver gives an exact solution for every right-hand side of the right length. */
  ghost predicate ExactFor(solver: (seq<seq<real>>, seq<real>) -> seq<real>, a: seq<seq<real>>)
  {
    forall b {:trigger solver(a, b)} :: |b| == |a| ==> Solves(a, solver(a, b), b)
  }

  /** A zero row of F gives the identity row in I − h·F. */
  lemma OperatorUnitRow(f: seq<seq<real>>, h: real, r: nat)
    requires r < |f| && f[r] == Zeros(|f[r]|)
    ensures Operator(f, h)[r] == UnitRow(|f[r]|, r)
  {
    assert Combine(UnitRow(|f[r]|, r), f[r], h) == UnitRow(|f[r]|, r);
  }

  /** With an exact solver, an identity row r of a makes entry r of the solution equal entry r of the right-hand side. */
  lemma {:induction false} UnitRowPicks(solver: (seq<seq<real>>, seq<real>) -> seq<real>, a: seq<seq<real>>, b: seq<real>, r: nat)
    requires ExactFor(solver, a) && |b| == |a| && r < |a| && a[r] == UnitRow(|a|, r)
    ensures |solver(a, b)| == |a| && solver(a, b)[r] == b[r]
  {
    var x := solver(a, b);
    assert Solves(a, x, b);
    assert MatVec(a, x)[r] == Dot(a[r], x);
    DotPick(a[r], x, r);
  }

  /** The row of I − h·F of a vertex whose neighbour area is at most epsilon is the identity row. */
  lemma SkippedRowIsUnit(sqrt: real -> real, hes: seq<He>, ps: seq<Vec3>, rings: seq<seq<nat>>, h: real, areas: seq<real>, v: nat)
    requires RowsReady(sqrt, hes, ps, rings, areas) && 1 <= v < |ps| && areas[v] <= Epsilon
    ensures FairingOperator(sqrt, hes, ps, rings, h, areas)[v - 1] == UnitRow(|ps| - 1, v - 1)
  {
    var f := FRows(sqrt, hes, ps, rings, areas, |ps| - 1);
    assert f[v - 1] == Zeros(|ps| - 1);
    OperatorUnitRow(f, h, v - 1);
  }

  /** With an exact solver, an identity row r of op keeps vertex r + 1 where it is. */
  lemma UnitRowKeepsPosition(op: seq<seq<real>>, ps: seq<Vec3>, solver: (seq<seq<real>>, seq<real>) -> seq<real>, r: nat)
    requires |ps| >= 1 && KeepsLength(solver) && ExactFor(solver, op) && |op| == |ps| - 1
    requires r < |op| && op[r] == UnitRow(|op|, r)
    ensures SolveWith(op, ps, solver)[r] == ps[r + 1]
  {
    UnitRowPicks(solver, op, Coordinates(ps, 0), r);
    UnitRowPicks(solver, op, Coordinates(ps, 1), r);
    UnitRowPicks(solver, op, Coordinates(ps, 2), r);
  }

  /**
   * A vertex whose neighbour area is at most epsilon has an all-zero row of
   * F, so its row of I − h·F is the identity row, and with an exact solver
   * it keeps its position.
   */
  lemma SkippedVertexKeepsPosition(sqrt: real -> real, hes: seq<He>, ps: seq<Vec3>, rings: seq<seq<nat>>, h: real, areas: seq<real>,
                                   solver: (seq<seq<real>>, seq<real>) -> seq<real>, v: nat)
    requires RowsReady(sqrt, hes, ps, rings, areas) && KeepsLength(solver)
    requires ExactFor(solver, FairingOperator(sqrt, hes, ps, rings, h, areas))
    requires 1 <= v < |ps| && areas[v] <= Epsilon
    ensures Faired(sqrt, hes, ps, rings, h, areas, solver)[v - 1] == ps[v]
  {
    SkippedRowIsUnit(sqrt, hes, ps, rings, h, areas, v);
    UnitRowKeepsPosition(FairingOperator(sqrt, hes, ps, rings, h, areas), ps, solver, v - 1);
  }
}
