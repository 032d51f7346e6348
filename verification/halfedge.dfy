/**
 * The halfedge helpers of the smoothing program (hw5 halfedge.cpp).
 *
 * The halfedge structure itself is built by build_HE in halfedge.h, which is
 * not part of this model. Its pointers become indices: a halfedge names its
 * vertex, its face, the next halfedge round the face and its flip; a face
 * names one of its halfedges; a vertex names one outgoing halfedge. Vertex 0
 * stands for the NULL entry that keeps vertex numbers 1-based.
 */
module Halfedge {
  import opened Wrappers
  import opened LinAlg
  import Mesh
  import Hw5Object
  import VectorHelpers

  /** HEV: the position, the outgoing halfedge, the vertex normal and the index the fairing code assigns. */
  datatype Hev = Hev(pos: Vec3, out: nat, normal: Vec3, index: int)

  /** HE: the vertex it points to, its face, the next halfedge round that face, and its flip. */
  datatype He = He(vertex: nat, face: nat, next: nat, flip: nat)

  /** HEF: one halfedge of the face. */
  datatype Hef = Hef(edge: nat)

  /** Every halfedge's next and flip name existing halfedges. */
  predicate Closed(hes: seq<He>)
  {
    forall e :: 0 <= e < |hes| ==> hes[e].next < |hes| && hes[e].flip < |hes|
  }

  /** Every halfedge points to a real vertex 1 .. nv − 1, never to the NULL vertex 0. */
  predicate PointsInto(hes: seq<He>, nv: nat)
  {
    forall e :: 0 <= e < |hes| ==> 1 <= hes[e].vertex < nv
  }

  /** he->flip->next: the next outgoing halfedge of the same vertex. */
  function NextOut(hes: seq<He>, h: nat): (r: nat)
    requires Closed(hes) && h < |hes|
    ensures r < |hes|
  {
    hes[hes[h].flip].next
  }

  class HalfedgeMesh {
    var hevs: array<Hev>
    var hes: seq<He>
    var hefs: seq<Hef>

    /** Every halfedge and face link names an existing element, and no halfedge points to the NULL vertex 0. */
    ghost predicate LinksValid()
      reads this
    {
      hevs.Length >= 1 && Closed(hes) && PointsInto(hes, hevs.Length) &&
      (forall e :: 0 <= e < |hes| ==> hes[e].face < |hefs|) &&
      (forall f :: 0 <= f < |hefs| ==> hefs[f].edge < |hes|)
    }

    /** The links are valid and every vertex's outgoing halfedge exists. */
    ghost predicate Valid()
      reads this, hevs
    {
      LinksValid() && forall i :: 1 <= i < hevs.Length ==> hevs[i].out < |hes|
    }

    constructor (vs: array<Hev>, es: seq<He>, fs: seq<Hef>)
      ensures hevs == vs && hes == es && hefs == fs
    {
      hevs := vs;
      hes := es;
      hefs := fs;
    }

    // -------------------------------------------------------------- faces

    /** The positions of a face's three vertices, in halfedge order. */
    function Corners(f: nat): (Vec3, Vec3, Vec3)
      reads this, hevs
      requires LinksValid() && f < |hefs|
    {
      var e := hefs[f].edge;
      (hevs[hes[e].vertex].pos, hevs[hes[hes[e].next].vertex].pos, hevs[hes[hes[hes[e].next].next].vertex].pos)
    }

    /**
     * compute_face_normal: (v2 − v1) × (v3 − v1). It is orthogonal to both
     * edges leaving v1, so to the plane of the face.
     */
    function FaceNormal(f: nat): (n: Vec3)
      reads this, hevs
      requires LinksValid() && f < |hefs|
      ensures var (v1, v2, v3) := Corners(f); Dot3(n, Sub3(v2, v1)) == 0.0 && Dot3(n, Sub3(v3, v1)) == 0.0
    {
      var (v1, v2, v3) := Corners(f);
      VectorHelpers.CrossOrthogonal(Sub3(v2, v1), Sub3(v3, v1));
      Cross3(Sub3(v2, v1), Sub3(v3, v1))
    }

    /** compute_face_area: half the length of the face normal; never negative when sqrt is a true square root. */
    function FaceArea(m: Math, f: nat): (a: real)
      reads this, hevs
      requires LinksValid() && f < |hefs|
      ensures SqrtLaw(m) ==> a >= 0.0
    {
      VectorHelpers.DotLaws(FaceNormal(f), FaceNormal(f));
      Norm3(m, FaceNormal(f)) / 2.0
    }

    // -------------------------------------------------------------- the ring round a vertex

    /** The halfedge k steps round the ring from h. */
    function Walk(h: nat, k: nat): (r: nat)
      reads this
      requires LinksValid() && h < |hes|
      ensures r < |hes|
      decreases k
    {
      if k == 0 then h else NextOut(hes, Walk(h, k - 1))
    }

    /** The ring from h closes after exactly k steps. */
    ghost predicate IsRing(h: nat, k: nat)
      reads this
      requires LinksValid() && h < |hes|
    {
      k >= 1 && Walk(h, k) == h && forall j :: 1 <= j < k ==> Walk(h, j) != h
    }

    /** The face normal of h's face weighted by that face's area. */
    function Weighted(m: Math, h: nat): Vec3
      reads this, hevs
      requires LinksValid() && h < |hes|
    {
      Scale3(FaceArea(m, hes[h].face), FaceNormal(hes[h].face))
    }

    /** The area-weighted normals of the first k faces round the ring from h, summed in visiting order. */
    function RingSum(m: Math, h: nat, k: nat): Vec3
      reads this, hevs
      requires LinksValid() && h < |hes|
      decreases k
    {
      if k == 0 then Zero3 else Add3(RingSum(m, h, k - 1), Weighted(m, Walk(h, k - 1)))
    }

    /** The total area of the first k faces round the ring from h. */
    function RingArea(m: Math, h: nat, k: nat): real
      reads this, hevs
      requires LinksValid() && h < |hes|
      decreases k
    {
      if k == 0 then 0.0 else RingArea(m, h, k - 1) + FaceArea(m, hes[Walk(h, k - 1)].face)
    }

    /**
     * compute_vertex_normal: visits the faces round vertex v once each, by
     * he = he->flip->next from hev->out until it is back at hev->out, sums
     * their area-weighted normals, normalises the sum and stores it as v's
     * normal. Nothing else changes.
     */
    method ComputeVertexNormal(m: Math, v: nat, ghost k: nat)
      requires Valid() && 1 <= v < hevs.Length && IsRing(hevs[v].out, k)
      requires Norm3(m, RingSum(m, hevs[v].out, k)) != 0.0
      modifies hevs
      ensures hevs[v] == old(hevs[v]).(normal := VectorHelpers.DivideByNorm(m, old(RingSum(m, hevs[v].out, k))))
      ensures forall i :: 0 <= i < hevs.Length && i != v ==> hevs[i] == old(hevs[i])
    {
      var sum := RingNormalSum(m, hevs[v].out, k);
      var normal := VectorHelpers.DivideByNorm(m, sum);
      hevs[v] := hevs[v].(normal := normal);
    }

    /**
     * The do-while of compute_normal: from the outgoing halfedge out, adds
     * each face's area-weighted normal round the vertex until the walk is
     * back at out, which on a ring of k faces is the sum over those k faces.
     */
    method RingNormalSum(m: Math, out: nat, ghost k: nat) returns (sum: Vec3)
      requires LinksValid() && out < |hes| && IsRing(out, k)
      ensures sum == RingSum(m, out, k)
    {
      var he := out;
      sum := Zero3;
      // the first pass of the do-while
      he, sum := AddRingFace(m, out, 0, he, sum);
      ghost var j: nat := 1;
      while he != out
        invariant 1 <= j <= k && he == Walk(out, j) && sum == RingSum(m, out, j)
        decreases k - j
      {
        RingNotClosed(out, k, j);
        he, sum := AddRingFace(m, out, j, he, sum);
        j := j + 1;
      }
    }

    /** A walk round a ring of k that is not back at its start has not taken k steps yet. */
    lemma RingNotClosed(h: nat, k: nat, j: nat)
      requires LinksValid() && h < |hes| && IsRing(h, k) && j <= k && Walk(h, j) != h
      ensures j < k
    {
    }

    /** The body of the do-while: adds the weighted normal of he's face and moves to the next outgoing halfedge. */
    method AddRingFace(m: Math, out: nat, ghost j: nat, he: nat, sum: Vec3) returns (he': nat, sum': Vec3)
      requires LinksValid() && out < |hes| && he == Walk(out, j) && sum == RingSum(m, out, j)
      ensures he' == Walk(out, j + 1) && sum' == RingSum(m, out, j + 1)
    {
      sum' := Add3(sum, Scale3(FaceArea(m, hes[he].face), FaceNormal(hes[he].face)));
      he' := hes[hes[he].flip].next;
    }

    /**
     * Round a flat vertex, where every face has the same normal n, the
     * weighted sum is n times the total area, so the vertex normal points
     * along the common face normal.
     */
    lemma {:induction false} FlatRing(m: Math, h: nat, k: nat, n: Vec3)
      requires LinksValid() && h < |hes|
      requires forall j :: 0 <= j < k ==> FaceNormal(hes[Walk(h, j)].face) == n
      ensures RingSum(m, h, k) == Scale3(RingArea(m, h, k), n)
      decreases k
    {
      if k > 0 {
        FlatRing(m, h, k - 1, n);
        var f := hes[Walk(h, k - 1)].face;
        assert Weighted(m, Walk(h, k - 1)) == Scale3(FaceArea(m, f), n);
        ScalesAdd(RingArea(m, h, k - 1), FaceArea(m, f), n);
      }
    }
  }

  /** Scaling by a and by b and adding is scaling by a + b. */
  lemma ScalesAdd(a: real, b: real, n: Vec3)
    ensures Add3(Scale3(a, n), Scale3(b, n)) == Scale3(a + b, n)
  {
  }

  // ---------------------------------------------------------------- create_mesh_data

  /**
   * create_mesh_data: the vertex list starts with NULL and holds a copy of
   * each of the object's vertices from index 1 on, so it is as long as the
   * object's list (when that is not empty); the face list copies the
   * object's faces in order.
   */
  method CreateMeshData(obj: Hw5Object.Object) returns (vertices: seq<Option<Hw5Object.Vertex>>, faces: seq<Mesh.Face>)
    ensures |vertices| == if |obj.vertices| == 0 then 1 else |obj.vertices|
    ensures vertices[0] == None
    ensures forall i :: 1 <= i < |obj.vertices| ==> vertices[i] == Some(obj.vertices[i])
    ensures faces == obj.faces
  {
    vertices := [None];
    var i := 1;
    while i < |obj.vertices|
      invariant 1 <= i && |vertices| == i && vertices[0] == None
      invariant i <= |obj.vertices| || i == 1
      invariant forall j :: 1 <= j < i ==> vertices[j] == Some(obj.vertices[j])
    {
      vertices := vertices + [Some(obj.vertices[i])];
      i := i + 1;
    }
    faces := [];
    i := 0;
    while i < |obj.faces|
      invariant i <= |obj.faces| && faces == obj.faces[..i]
    {
      faces := faces + [obj.faces[i]];
      i := i + 1;
    }
  }
}
