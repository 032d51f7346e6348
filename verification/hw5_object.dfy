/**
 * The object of the smoothing program (hw5 object.h and object.cpp): the
 * vertex and face lists read from the file, the flattened vertex and normal
 * buffers handed to OpenGL, the transformation sets and the material.
 */
module Hw5Object {
  import opened LinAlg
  import Mesh
  import opened Hw3Transform
  import opened SceneBlocks

  /**
   * A vertex (x, y, z); NULL_VERTEX, whose coordinates are infinite and mark
   * index 0; or the vertex (NaN, NaN, NaN) that arithmetic on NULL_VERTEX's
   * infinite coordinates yields.
   */
  datatype Vertex = Vertex(x: real, y: real, z: real) | NullVertex | NaNVertex

  /** The position of a real vertex. */
  function Pos(v: Vertex): Vec3
    requires v.Vertex?
  {
    Vec3(v.x, v.y, v.z)
  }

  class Object {
    var vertices: seq<Vertex>
    var faces: seq<Mesh.Face>
    var vertexBuffer: seq<Vertex>
    var normalBuffer: seq<Vertex>
    var transforms: seq<TransformSet>
    var material: Material

    /** Object(): everything empty and the default (all-zero) material. */
    constructor ()
      ensures vertices == [] && faces == [] && vertexBuffer == [] && normalBuffer == []
      ensures transforms == [] && material == UnsetMaterial
    {
      vertices := [];
      faces := [];
      vertexBuffer := [];
      normalBuffer := [];
      transforms := [];
      material := UnsetMaterial;
    }

    /** Object(vs, fs): the given lists, empty buffers and transformations, the default material. */
    constructor FromLists(vs: seq<Vertex>, fs: seq<Mesh.Face>)
      ensures vertices == vs && faces == fs && vertexBuffer == [] && normalBuffer == []
      ensures transforms == [] && material == UnsetMaterial
    {
      vertices := vs;
      faces := fs;
      vertexBuffer := [];
      normalBuffer := [];
      transforms := [];
      material := UnsetMaterial;
    }

    /** add(Vertex): appends v to the vertex list and changes nothing else. */
    method Add(v: Vertex)
      modifies this
      ensures vertices == old(vertices) + [v]
      ensures faces == old(faces) && vertexBuffer == old(vertexBuffer) && normalBuffer == old(normalBuffer)
      ensures transforms == old(transforms) && material == old(material)
    {
      vertices := vertices + [v];
    }

    /** add_face: appends f to the face list and changes nothing else. */
    method AddFace(f: Mesh.Face)
      modifies this
      ensures faces == old(faces) + [f]
      ensures vertices == old(vertices) && vertexBuffer == old(vertexBuffer) && normalBuffer == old(normalBuffer)
      ensures transforms == old(transforms) && material == old(material)
    {
      faces := faces + [f];
    }

    /**
     * add_vertex_to_buffer: appends v to the vertex buffer and changes
     * nothing else; get_vertex then reads it at the old length.
     */
    method AddVertexToBuffer(v: Vertex)
      modifies this
      ensures vertexBuffer == old(vertexBuffer) + [v]
      ensures GetVertex(|old(vertexBuffer)|) == v
      ensures vertices == old(vertices) && faces == old(faces) && normalBuffer == old(normalBuffer)
      ensures transforms == old(transforms) && material == old(material)
    {
      vertexBuffer := vertexBuffer + [v];
    }

    /**
     * add_normal_to_buffer: appends n to the normal buffer and changes
     * nothing else; get_vertex_normal then reads it at the old length.
     */
    method AddNormalToBuffer(n: Vertex)
      modifies this
      ensures normalBuffer == old(normalBuffer) + [n]
      ensures GetVertexNormal(|old(normalBuffer)|) == n
      ensures vertices == old(vertices) && faces == old(faces) && vertexBuffer == old(vertexBuffer)
      ensures transforms == old(transforms) && material == old(material)
    {
      normalBuffer := normalBuffer + [n];
    }

    /** get_vertex(i): entry i of the vertex buffer (not of the vertex list). */
    function GetVertex(i: int): Vertex
      reads this
      requires 0 <= i < |vertexBuffer|
    {
      vertexBuffer[i]
    }

    /** get_vertex_normal(i): entry i of the normal buffer. */
    function GetVertexNormal(i: int): Vertex
      reads this
      requires 0 <= i < |normalBuffer|
    {
      normalBuffer[i]
    }
  }
}
