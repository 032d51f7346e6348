/**
 * The homogeneous vertex and the triangle face shared by the wireframe and
 * shaded renderers (hw1 and hw2 object.h / object.cpp), and the conversions
 * between a vertex and a 4x1 column vector.
 */
module Mesh {
  import opened LinAlg

  /**
   * A vertex with homogeneous coordinates, or NULL_VERTEX, the sentinel kept
   * at index 0 of every vertex list so that the 1-based face indices can be
   * used directly. Its coordinates are all +infinity, which no other vertex
   * has; the model keeps it as its own case.
   */
  datatype Vertex = Vertex(x: real, y: real, z: real, w: real) | NullVertex

  /** A triangle, as three 1-based indices into its object's vertex list. */
  datatype Face = Face(i1: int, i2: int, i3: int)

  /** to_col_vector: the column (x, y, z, w). */
  function ToColVector(v: Vertex): (c: Vec4)
    requires v.Vertex?
    ensures c.x == v.x && c.y == v.y && c.z == v.z && c.w == v.w
  {
    Vec4(v.x, v.y, v.z, v.w)
  }

  /** to_vertex: the vertex whose four coordinates are the column's entries. */
  function ToVertex(c: Vec4): (v: Vertex)
    ensures v.Vertex? && v.x == c.x && v.y == c.y && v.z == c.z && v.w == c.w
  {
    Vertex(c.x, c.y, c.z, c.w)
  }

  /** The two conversions are inverse to each other, in both directions. */
  lemma ColVectorRoundTrip(v: Vertex, c: Vec4)
    ensures v.Vertex? ==> ToVertex(ToColVector(v)) == v
    ensures ToColVector(ToVertex(c)) == c
  {
  }

  /**
   * A vertex list as the parsers build it: the sentinel at index 0 and real
   * vertices everywhere else.
   */
  predicate SentinelFirst(vs: seq<Vertex>)
  {
    |vs| >= 1 && vs[0] == NullVertex && forall i :: 1 <= i < |vs| ==> vs[i].Vertex?
  }

  /** Appending a real vertex keeps the sentinel-first shape. */
  lemma SentinelFirstSnoc(vs: seq<Vertex>, v: Vertex)
    requires SentinelFirst(vs) && v.Vertex?
    ensures SentinelFirst(vs + [v])
  {
    assert forall i :: 1 <= i < |vs| ==> (vs + [v])[i] == vs[i];
  }

  /** Every index of every face names an entry of the vertex list. */
  predicate FacesInRange(vs: seq<Vertex>, fs: seq<Face>)
  {
    forall k :: 0 <= k < |fs| ==>
      0 <= fs[k].i1 < |vs| && 0 <= fs[k].i2 < |vs| && 0 <= fs[k].i3 < |vs|
  }
}
