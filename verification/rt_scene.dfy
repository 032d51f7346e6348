/**
 * The ray tracer's scene (hw7 scene.h / scene.cpp): the light list, the
 * tessellation buffers, the root objects, the name-to-object registry and
 * the camera, and the closest intersection of a ray with the root objects.
 */
module RtScene {
  import opened LinAlg
  import opened Floats
  import opened Wrappers
  import opened RtTransform
  import opened RtObject
  import opened RtIntersect

  datatype Light = Light(position: Vec4, color: Color, attenuation: real)

  datatype Frustum = Frustum(aspectRatio: real, fov: real, near: real, far: real)

  /** The camera's translation and rotation, as transformation values, and its frustum. */
  datatype Camera = Camera(translate: Transform, rotate: Transform, frustum: Frustum)

  /**
   * Tesselate's contribution for one root object: the vertices and normals it
   * appends to the two buffers. The geometry itself is not part of this
   * model, so it is a parameter of ReloadObjects.
   */
  type Tessellator = Node -> (seq<Vec3>, seq<Vec3>)

  /** The vertex buffer after tessellating the roots in order into empty buffers. */
  function TessellatedVertices(tess: Tessellator, roots: seq<Node>): seq<Vec3>
  {
    if roots == [] then [] else TessellatedVertices(tess, roots[..|roots| - 1]) + tess(roots[|roots| - 1]).0
  }

  /** The normal buffer after tessellating the roots in order into empty buffers. */
  function TessellatedNormals(tess: Tessellator, roots: seq<Node>): seq<Vec3>
  {
    if roots == [] then [] else TessellatedNormals(tess, roots[..|roots| - 1]) + tess(roots[|roots| - 1]).1
  }

  /**
   * When every root contributes as many normals as vertices, the two
   * buffers have the same length, so vertex i and normal i belong together.
   */
  lemma {:induction false} BuffersStayParallel(tess: Tessellator, roots: seq<Node>)
    requires forall i :: 0 <= i < |roots| ==> |tess(roots[i]).0| == |tess(roots[i]).1|
    ensures |TessellatedVertices(tess, roots)| == |TessellatedNormals(tess, roots)|
  {
    if roots != [] {
      var k := |roots| - 1;
      assert forall i :: 0 <= i < k ==> roots[..k][i] == roots[i];
      BuffersStayParallel(tess, roots[..k]);
    }
  }

  /** Every root is a tree whose superquadrics have nonzero exponents. */
  predicate RootsWellFormed(roots: seq<Node>)
  {
    forall i :: 0 <= i < |roots| ==> ExpsNonzero(roots[i])
  }

  /** Each root's closest hit for the ray, in root order. */
  function RootHits(m: Math, roots: seq<Node>, ray: Ray): (hs: seq<Hit>)
    requires SqrtLaw(m) && RootsWellFormed(roots)
    ensures |hs| == |roots| && forall i :: 0 <= i < |roots| ==> hs[i] == ClosestHit(m, roots[i], ray)
  {
    seq(|roots|, i requires 0 <= i < |roots| => ClosestHit(m, roots[i], ray))
  }

  class Scene {
    var lights: seq<Light>
    var vertexBuffer: seq<Vec3>
    var normalBuffer: seq<Vec3>
    var rootObjects: seq<Node>
    var objects: map<string, Node>
    var camera: Camera

    /** Scene(): no lights, no objects, empty buffers. */
    constructor ()
      ensures lights == [] && vertexBuffer == [] && normalBuffer == []
      ensures rootObjects == [] && objects == map[]
    {
      lights, vertexBuffer, normalBuffer := [], [], [];
      rootObjects, objects := [], map[];
      camera := Camera(TranslateBy(Zero3), RotateBy(Vec3(1.0, 0.0, 0.0), 0.0), Frustum(0.0, 0.0, 0.0, 0.0));
    }

    /**
     * ReloadObjects empties both buffers and tessellates every root object
     * into them, in root order: nothing from before the call survives.
     */
    method ReloadObjects(tess: Tessellator)
      modifies this
      ensures vertexBuffer == TessellatedVertices(tess, rootObjects)
      ensures normalBuffer == TessellatedNormals(tess, rootObjects)
      ensures lights == old(lights) && rootObjects == old(rootObjects)
      ensures objects == old(objects) && camera == old(camera)
    {
      vertexBuffer := [];
      normalBuffer := [];
      var i := 0;
      while i < |rootObjects|
        invariant 0 <= i <= |rootObjects|
        invariant vertexBuffer == TessellatedVertices(tess, rootObjects[..i])
        invariant normalBuffer == TessellatedNormals(tess, rootObjects[..i])
        invariant lights == old(lights) && rootObjects == old(rootObjects)
        invariant objects == old(objects) && camera == old(camera)
      {
        assert rootObjects[..i + 1][..i] == rootObjects[..i];
        var (vertices, normals) := tess(rootObjects[i]);
        vertexBuffer := vertexBuffer + vertices;
        normalBuffer := normalBuffer + normals;
        i := i + 1;
      }
      assert rootObjects[..|rootObjects|] == rootObjects;
    }

    /** After SetCamera(c), GetCamera() returns c; nothing else changes. */
    method SetCamera(cam: Camera)
      modifies this
      ensures GetCamera() == cam
      ensures lights == old(lights) && vertexBuffer == old(vertexBuffer) && normalBuffer == old(normalBuffer)
      ensures rootObjects == old(rootObjects) && objects == old(objects)
    {
      camera := cam;
    }

    function GetCamera(): Camera
      reads this
    {
      camera
    }

    function GetLights(): seq<Light>
      reads this
    {
      lights
    }

    /** AddLight appends, so GetLights lists the lights in the order they were added. */
    method AddLight(light: Light)
      modifies this
      ensures GetLights() == old(GetLights()) + [light]
      ensures camera == old(camera) && vertexBuffer == old(vertexBuffer) && normalBuffer == old(normalBuffer)
      ensures rootObjects == old(rootObjects) && objects == old(objects)
    {
      lights := lights + [light];
    }

    /**
     * AddObject registers obj under name unless the name is already taken
     * (the existing entry then stays), and appends obj to the roots exactly
     * when isRoot, whether or not the name was new.
     */
    method AddObject(name: string, obj: Node, isRoot: bool)
      modifies this
      ensures name in old(objects) ==> objects == old(objects)
      ensures name !in old(objects) ==> objects == old(objects)[name := obj]
      ensures rootObjects == if isRoot then old(rootObjects) + [obj] else old(rootObjects)
      ensures lights == old(lights) && camera == old(camera)
      ensures vertexBuffer == old(vertexBuffer) && normalBuffer == old(normalBuffer)
    {
      if name !in objects {
        objects := objects[name := obj];
      }
      if isRoot {
        rootObjects := rootObjects + [obj];
      }
    }

    /** GetObject: the registered object, or nothing for an unknown name. */
    function GetObject(name: string): (r: Option<Node>)
      reads this
      ensures r.None? <==> name !in objects
      ensures r.Some? ==> r.value == objects[name]
    {
      if name !in objects then None else Some(objects[name])
    }

    /**
     * Scene::ClosestIntersection: the fold of the roots' closest hits that
     * keeps the first strictly closer one. With no roots it is NoHit, and no
     * root reports a distance strictly below the result.
     */
    method ClosestIntersection(m: Math, incoming: Ray) returns (closest: Hit)
      requires SqrtLaw(m) && RootsWellFormed(rootObjects)
      ensures closest == Closest(RootHits(m, rootObjects, incoming))
      ensures rootObjects == [] ==> closest == NoHit()
      ensures forall i :: 0 <= i < |rootObjects| ==> !Less(ClosestHit(m, rootObjects[i], incoming).t, closest.t)
    {
      ghost var hits := RootHits(m, rootObjects, incoming);
      closest := NoHit();
      var i := 0;
      while i < |rootObjects|
        invariant 0 <= i <= |rootObjects|
        invariant closest == Closest(hits[..i])
      {
        var temp := RtIntersect.ClosestIntersection(m, rootObjects[i], incoming);
        assert hits[..i + 1][..i] == hits[..i];
        if Less(temp.t, closest.t) {
          closest := temp;
        }
        i := i + 1;
      }
      assert hits[..|rootObjects|] == hits;
      ClosestIsMinimal(hits);
    }
  }

  /**
   * Ties between roots go to the earliest: the scene's result is NoHit or
   * the hit of some root, and every earlier root reports a strictly larger
   * distance (or NaN).
   */
  lemma SceneTiesGoToFirstRoot(m: Math, roots: seq<Node>, ray: Ray)
    requires SqrtLaw(m) && RootsWellFormed(roots)
    ensures var hs := RootHits(m, roots, ray);
      Closest(hs) == NoHit() ||
      exists i :: 0 <= i < |roots| && Closest(hs) == hs[i] &&
        forall j :: 0 <= j < i ==> hs[j].t == NaN || Less(hs[i].t, hs[j].t)
  {
    ClosestIsFirstMinimum(RootHits(m, roots, ray));
  }
}
