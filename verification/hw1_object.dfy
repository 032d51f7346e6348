/**
 * The wireframe renderer's objects (hw1 object.h / object.cpp): a vertex
 * list with the sentinel first, a face list and a transformation list, and
 * the transformed vertex list, M·v with no homogeneous divide.
 */
module Hw1Object {
  import opened LinAlg
  import opened Mesh
  import opened Hw1Transform
  import Hw2Object

  class Object {
    var vertices: seq<Vertex>
    var faces: seq<Face>
    var transform: Transformation

    /** Object(): empty vertex and face lists and an empty transformation. */
    constructor ()
      ensures vertices == [] && faces == [] && fresh(transform) && transform.ts == []
    {
      vertices := [];
      faces := [];
      transform := new Transformation();
    }

    /**
     * The copy constructor: new vertex and face lists and a new
     * transformation holding the same matrices, so later changes to either
     * object leave the other alone.
     */
    constructor Copy(other: Object)
      ensures vertices == other.vertices && faces == other.faces
      ensures fresh(transform) && transform.ts == other.transform.ts
    {
      vertices := other.vertices;
      faces := other.faces;
      var t := new Transformation();
      t.ts := other.transform.ts;
      transform := t;
    }

    /** add(Vertex): appends v; the faces and the transformation stay. */
    method AddVertex(v: Vertex)
      modifies this
      ensures vertices == old(vertices) + [v]
      ensures faces == old(faces) && transform == old(transform)
    {
      vertices := vertices + [v];
    }

    /** add(Face): appends f; the vertices and the transformation stay. */
    method AddFace(f: Face)
      modifies this
      ensures faces == old(faces) + [f]
      ensures vertices == old(vertices) && transform == old(transform)
    {
      faces := faces + [f];
    }
  }

  /** The image of one vertex under m, as a vertex, without dividing by w. */
  function Image(m: Mat4, v: Vertex): (r: Vertex)
    requires v.Vertex?
    ensures r.Vertex? && ToColVector(r) == Apply(m, ToColVector(v))
  {
    ToVertex(Apply(m, ToColVector(v)))
  }

  /**
   * get_transformed_vertices(obj): the sentinel, then compute_product()·v for
   * every later vertex; the list keeps its length (an empty list gives the
   * sentinel alone).
   */
  method GetTransformedVertices(obj: Object) returns (r: seq<Vertex>)
    requires forall i :: 1 <= i < |obj.vertices| ==> obj.vertices[i].Vertex?
    ensures |r| == if |obj.vertices| == 0 then 1 else |obj.vertices|
    ensures r[0] == NullVertex
    ensures forall i :: 1 <= i < |obj.vertices| ==> r[i] == Image(ProductLastFirst(obj.transform.ts), obj.vertices[i])
  {
    var n := |obj.vertices|;
    r := [NullVertex];
    var i := 1;
    while i < n
      invariant 1 <= i <= if n == 0 then 1 else n
      invariant |r| == i && r[0] == NullVertex
      invariant forall k :: 1 <= k < i ==> r[k] == Image(ProductLastFirst(obj.transform.ts), obj.vertices[k])
    {
      var v := obj.vertices[i];
      var col := ToColVector(v);
      var prod := obj.transform.ComputeProduct();
      var fin := Apply(prod, col);
      r := r + [ToVertex(fin)];
      i := i + 1;
    }
  }

  /**
   * The shaded renderer divides by w after transforming; for a list of
   * rotations, translations and scalings and a vertex with w = 1 the divide
   * changes nothing, so both renderers place the vertex alike.
   */
  lemma AffineNeedsNoDivide(ms: seq<Mat4>, v: Vertex)
    requires forall i :: 0 <= i < |ms| ==> Affine(ms[i])
    requires v.Vertex? && v.w == 1.0
    ensures Apply(ProductLastFirst(ms), ToColVector(v)).w == 1.0
    ensures Hw2Object.TransformVertex(ProductLastFirst(ms), v) == Image(ProductLastFirst(ms), v)
  {
    AffineProduct(ms);
    var c := Apply(ProductLastFirst(ms), ToColVector(v));
    assert c.w == 1.0;
    assert c.x / 1.0 == c.x && c.y / 1.0 == c.y && c.z / 1.0 == c.z;
  }
}
