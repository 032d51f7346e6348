/**
 * The shaded renderer's scene (hw2 scene.h / scene.cpp): a camera, a
 * perspective, labelled objects held by value, lights and the screen
 * resolution, and the passes that carry every object's vertices from
 * world space to camera space, to NDC and to the screen.
 */
module Hw2Scene {
  import opened LinAlg
  import opened Mesh
  import opened Labels
  import opened Projection
  import opened Viewing
  import opened Bresenham
  import opened Hw2Object
  import opened Rasterization

  /** Light(l, c, k): a position (w = 1), a colour and an attenuation. */
  datatype Light = Light(position: Vertex, color: Color, attenuation: real)

  /** r is vs with every entry after the sentinel mapped by m and divided by its w. */
  predicate TransformedBy(m: Mat4, vs: seq<Vertex>, r: seq<Vertex>)
    requires Transformable(m, vs)
  {
    |r| == (if |vs| == 0 then 1 else |vs|) && r[0] == NullVertex &&
    forall i :: 1 <= i < |vs| ==> r[i] == TransformVertex(m, vs[i])
  }

  /** r is vs with every entry after the sentinel moved to its screen position. */
  predicate ScreenedBy(xres: int, yres: int, vs: seq<Vertex>, r: seq<Vertex>)
    requires forall i :: 1 <= i < |vs| ==> vs[i].Vertex?
  {
    |r| == (if |vs| == 0 then 1 else |vs|) && r[0] == NullVertex &&
    forall i :: 1 <= i < |vs| ==> r[i] == ToScreen(vs[i], xres, yres)
  }

  /** after differs from before in its vertex list at most. */
  predicate OnlyVerticesChanged(before: Labeled<Object>, after: Labeled<Object>)
  {
    after.name == before.name && after.obj.faces == before.obj.faces &&
    after.obj.transforms == before.obj.transforms
  }

  /** Every object's faces name entries of its vertex list. */
  predicate AllFacesInRange(objs: seq<Labeled<Object>>)
  {
    forall i :: 0 <= i < |objs| ==> FacesInRange(objs[i].obj.vertices, objs[i].obj.faces)
  }

  /** The union of a list of sets, accumulated in list order. */
  function Union<T>(ss: seq<set<T>>): set<T>
  {
    if ss == [] then {} else Union(ss[..|ss| - 1]) + ss[|ss| - 1]
  }

  /** An element is in the union exactly when it is in one of the sets. */
  lemma {:induction false} InUnion<T>(ss: seq<set<T>>, p: T)
    ensures p in Union(ss) <==> exists i :: 0 <= i < |ss| && p in ss[i]
  {
    if ss != [] {
      var init := ss[..|ss| - 1];
      InUnion(init, p);
      if p in Union(init) {
        var i :| 0 <= i < |init| && p in init[i];
        assert ss[i] == init[i];
      }
      if exists i :: 0 <= i < |ss| && p in ss[i] {
        var i :| 0 <= i < |ss| && p in ss[i];
        if i < |init| {
          assert init[i] == ss[i];
        }
      }
    }
  }

  /** The pixel set of each object, in list order. */
  function ObjectPixelSets(objs: seq<Labeled<Object>>, xres: int, yres: int): (ss: seq<set<Pixel>>)
    requires AllFacesInRange(objs)
    ensures |ss| == |objs|
    ensures forall i :: 0 <= i < |objs| ==> ss[i] == FacesPixels(AsWritten, objs[i].obj.vertices, objs[i].obj.faces, xres, yres)
  {
    seq(|objs|, i requires 0 <= i < |objs| => FacesPixels(AsWritten, objs[i].obj.vertices, objs[i].obj.faces, xres, yres))
  }

  /** The scene's pixels: the union of the objects' pixel sets. */
  function ScenePixels(objs: seq<Labeled<Object>>, xres: int, yres: int): set<Pixel>
    requires AllFacesInRange(objs)
  {
    Union(ObjectPixelSets(objs, xres, yres))
  }

  /** A pixel belongs to the scene exactly when it belongs to some object. */
  lemma ScenePixelsAreUnion(objs: seq<Labeled<Object>>, xres: int, yres: int, p: Pixel)
    requires AllFacesInRange(objs)
    ensures p in ScenePixels(objs, xres, yres) <==>
      exists i :: 0 <= i < |objs| && p in FacesPixels(AsWritten, objs[i].obj.vertices, objs[i].obj.faces, xres, yres)
  {
    InUnion(ObjectPixelSets(objs, xres, yres), p);
  }

  /** Every pixel of the scene lies in [0, xres] x [0, yres]. */
  lemma ScenePixelsOnScreen(objs: seq<Labeled<Object>>, xres: int, yres: int, p: Pixel)
    requires AllFacesInRange(objs) && xres >= 0 && yres >= 0
    requires p in ScenePixels(objs, xres, yres)
    ensures 0 <= p.0 <= xres && 0 <= p.1 <= yres
  {
    ScenePixelsAreUnion(objs, xres, yres, p);
    var i :| 0 <= i < |objs| && p in FacesPixels(AsWritten, objs[i].obj.vertices, objs[i].obj.faces, xres, yres);
    PixelsOnScreen(AsWritten, objs[i].obj.vertices, objs[i].obj.faces, xres, yres, p);
  }

  /**
   * Scene::to_ndc_coordinates: (perspective · camera⁻¹) · v, then the
   * homogeneous divide.
   */
  function ToNdc(m: Math, cam: Camera, persp: Perspective, v: Vertex): Vertex
    requires Proper(persp) && v.Vertex?
    requires Apply(Mul(PerspectiveMatrix(persp), WorldToCamera(m, cam)), ToColVector(v)).w != 0.0
  {
    TransformVertex(Mul(PerspectiveMatrix(persp), WorldToCamera(m, cam)), v)
  }

  /**
   * Converting one vertex with to_ndc_coordinates gives the same vertex as
   * the camera pass followed by the perspective pass, although the passes
   * divide by w twice and the conversion only once.
   */
  lemma NdcIsCameraThenPerspective(m: Math, cam: Camera, persp: Perspective, v: Vertex)
    requires Proper(persp) && v.Vertex?
    requires Apply(WorldToCamera(m, cam), ToColVector(v)).w != 0.0
    requires Apply(PerspectiveMatrix(persp), ToColVector(TransformVertex(WorldToCamera(m, cam), v))).w != 0.0
    ensures Apply(Mul(PerspectiveMatrix(persp), WorldToCamera(m, cam)), ToColVector(v)).w != 0.0
    ensures ToNdc(m, cam, persp, v) == TransformVertex(PerspectiveMatrix(persp), TransformVertex(WorldToCamera(m, cam), v))
  {
    TransformTwice(PerspectiveMatrix(persp), WorldToCamera(m, cam), v);
  }

  /** The same for any two matrices: transforming by B then by A is transforming by A·B. */
  lemma TransformTwice(a: Mat4, b: Mat4, v: Vertex)
    requires v.Vertex? && Apply(b, ToColVector(v)).w != 0.0
    requires Apply(a, ToColVector(TransformVertex(b, v))).w != 0.0
    ensures Apply(Mul(a, b), ToColVector(v)).w != 0.0
    ensures TransformVertex(Mul(a, b), v) == TransformVertex(a, TransformVertex(b, v))
  {
    DivideThenApply(a, b, ToColVector(v));
  }

  /**
   * Dividing by w between two matrices changes nothing once the result is
   * divided again: M·(N·x / w) and (M·N)·x name the same point.
   */
  lemma DivideThenApply(a: Mat4, b: Mat4, x: Vec4)
    requires Apply(b, x).w != 0.0
    requires Apply(a, ToColVector(ToCartesian(ToVertex(Apply(b, x))))).w != 0.0
    ensures Apply(Mul(a, b), x).w != 0.0
    ensures ToCartesian(ToVertex(Apply(Mul(a, b), x))) == ToCartesian(ToVertex(Apply(a, ToColVector(ToCartesian(ToVertex(Apply(b, x)))))))
  {
    var c := Apply(b, x);
    var k := 1.0 / c.w;
    var e := ToColVector(ToCartesian(ToVertex(c)));
    assert e == Scale4(k, c) && k != 0.0 by { CartesianIsScaled(c); }
    var d := Apply(a, c);
    assert Apply(a, e) == Scale4(k, d) by { ApplyScale(a, k, c); }
    assert Apply(Mul(a, b), x) == d by { ApplyMul(a, b, x); }
    assert d.w != 0.0 by { NonzeroFactor(k, d.w); }
    assert ToCartesian(ToVertex(Scale4(k, d))) == ToCartesian(ToVertex(d)) by { ScaledCartesian(d, k); }
  }

  /** The divided column is the original column times 1/w. */
  lemma CartesianIsScaled(c: Vec4)
    requires c.w != 0.0
    ensures ToColVector(ToCartesian(ToVertex(c))) == Scale4(1.0 / c.w, c)
    ensures 1.0 / c.w != 0.0
  {
    var k := 1.0 / c.w;
    assert k * c.w == 1.0;
    assert c.x / c.w == k * c.x && c.y / c.w == k * c.y && c.z / c.w == k * c.z;
  }

  lemma NonzeroFactor(k: real, w: real)
    requires k * w != 0.0
    ensures w != 0.0
  {
  }

  /** A column and a nonzero multiple of it divide to the same vertex. */
  lemma ScaledCartesian(d: Vec4, k: real)
    requires d.w != 0.0 && k != 0.0
    ensures ToCartesian(ToVertex(Scale4(k, d))) == ToCartesian(ToVertex(d))
  {
    ToCartesianOfMultiple(ToVertex(d), k);
  }

  /** Matrices are linear: M·(k·v) = k·(M·v). */
  lemma ApplyScale(m: Mat4, k: real, v: Vec4)
    ensures Apply(m, Scale4(k, v)) == Scale4(k, Apply(m, v))
  {
    DotScale(m.r0, k, v);
    DotScale(m.r1, k, v);
    DotScale(m.r2, k, v);
    DotScale(m.r3, k, v);
  }

  lemma DotScale(r: Vec4, k: real, v: Vec4)
    ensures Dot4(r, Scale4(k, v)) == k * Dot4(r, v)
  {
  }

  class Scene {
    var cam: Camera
    var persp: Perspective
    var objs: seq<Labeled<Object>>
    var lights: seq<Light>
    var xres: int
    var yres: int

    /** Scene(): defaults everywhere, no objects, no lights, resolution 0 x 0. */
    constructor Default()
      ensures cam == DefaultCamera && persp == Perspective(0.0, 0.0, 0.0, 0.0, 0.0, 0.0)
      ensures objs == [] && lights == [] && xres == 0 && yres == 0
    {
      cam := DefaultCamera;
      persp := Perspective(0.0, 0.0, 0.0, 0.0, 0.0, 0.0);
      objs, lights := [], [];
      xres, yres := 0, 0;
    }

    /** Scene(cam, persp, ls, xres, yres): the given values and no objects. */
    constructor (c: Camera, p: Perspective, ls: seq<Light>, w: int, h: int)
      ensures cam == c && persp == p && objs == [] && lights == ls && xres == w && yres == h
    {
      cam, persp := c, p;
      objs, lights := [], ls;
      xres, yres := w, h;
    }

    /** add_labeled_object(l_obj): appends exactly one entry at the end. */
    method AddLabeled(l: Labeled<Object>)
      modifies this
      ensures objs == old(objs) + [l]
      ensures cam == old(cam) && persp == old(persp) && lights == old(lights)
      ensures xres == old(xres) && yres == old(yres)
    {
      objs := objs + [l];
    }

    /** add_labeled_object(obj, label): the same, with the pair built first. */
    method AddLabeledObject(obj: Object, name: string)
      modifies this
      ensures objs == old(objs) + [Labeled(name, obj)]
      ensures cam == old(cam) && persp == old(persp) && lights == old(lights)
      ensures xres == old(xres) && yres == old(yres)
    {
      AddLabeled(Labeled(name, obj));
    }

    /**
     * apply_geometric_transforms: every object's vertices replaced by its
     * transformed list; the number of objects, their labels, faces and
     * transformations stay.
     */
    method ApplyGeometricTransforms()
      requires forall i :: 0 <= i < |objs| ==> Transformable(ProductLastFirst(objs[i].obj.transforms), objs[i].obj.vertices)
      modifies this
      ensures cam == old(cam) && persp == old(persp) && lights == old(lights)
      ensures xres == old(xres) && yres == old(yres)
      ensures |objs| == |old(objs)|
      ensures forall i :: 0 <= i < |objs| ==> (OnlyVerticesChanged(old(objs)[i], objs[i]) &&
        TransformedBy(ProductLastFirst(old(objs)[i].obj.transforms), old(objs)[i].obj.vertices, objs[i].obj.vertices))
    {
      var os := objs;
      var i := 0;
      while i < |os|
        modifies {}
        invariant 0 <= i <= |os| == |objs|
        invariant forall k :: 0 <= k < i ==> (OnlyVerticesChanged(objs[k], os[k]) &&
          TransformedBy(ProductLastFirst(objs[k].obj.transforms), objs[k].obj.vertices, os[k].obj.vertices))
        invariant forall k :: i <= k < |os| ==> os[k] == objs[k]
      {
        var vs := GetTransformedVertices(os[i].obj);
        os := os[i := Labeled(os[i].name, os[i].obj.(vertices := vs))];
        i := i + 1;
      }
      objs := os;
    }

    /**
     * apply_camera_transforms: every object's vertices mapped by the inverse
     * of the camera product into camera space. The source recomputes that
     * matrix for every object; the computation reads only the camera, so
     * computing it once gives the same lists.
     */
    method ApplyCameraTransforms(m: Math)
      requires forall i :: 0 <= i < |objs| ==> Transformable(WorldToCamera(m, cam), objs[i].obj.vertices)
      modifies this
      ensures cam == old(cam) && persp == old(persp) && lights == old(lights)
      ensures xres == old(xres) && yres == old(yres)
      ensures |objs| == |old(objs)|
      ensures forall i :: 0 <= i < |objs| ==> (OnlyVerticesChanged(old(objs)[i], objs[i]) &&
        TransformedBy(WorldToCamera(m, cam), old(objs)[i].obj.vertices, objs[i].obj.vertices))
    {
      var camInverse := WorldToCameraMatrix(m, cam);
      TransformEach(camInverse);
    }

    /**
     * apply_perspective_transform: every object's vertices mapped by the
     * perspective matrix and divided by w, into NDC.
     */
    method ApplyPerspectiveTransform()
      requires Proper(persp)
      requires forall i :: 0 <= i < |objs| ==> Transformable(PerspectiveMatrix(persp), objs[i].obj.vertices)
      modifies this
      ensures cam == old(cam) && persp == old(persp) && lights == old(lights)
      ensures xres == old(xres) && yres == old(yres)
      ensures |objs| == |old(objs)|
      ensures forall i :: 0 <= i < |objs| ==> (OnlyVerticesChanged(old(objs)[i], objs[i]) &&
        TransformedBy(PerspectiveMatrix(persp), old(objs)[i].obj.vertices, objs[i].obj.vertices))
    {
      var perspective := PerspectiveMatrix(persp);
      TransformEach(perspective);
    }

    /** The loop both passes run: each object's vertices replaced by get_transformed_vertices(obj, mat). */
    method TransformEach(mat: Mat4)
      requires forall i :: 0 <= i < |objs| ==> Transformable(mat, objs[i].obj.vertices)
      modifies this
      ensures cam == old(cam) && persp == old(persp) && lights == old(lights)
      ensures xres == old(xres) && yres == old(yres)
      ensures |objs| == |old(objs)|
      ensures forall i :: 0 <= i < |objs| ==> (OnlyVerticesChanged(old(objs)[i], objs[i]) &&
        TransformedBy(mat, old(objs)[i].obj.vertices, objs[i].obj.vertices))
    {
      var os := objs;
      var i := 0;
      while i < |os|
        modifies {}
        invariant 0 <= i <= |os| == |objs|
        invariant forall k :: 0 <= k < i ==> (OnlyVerticesChanged(objs[k], os[k]) &&
          TransformedBy(mat, objs[k].obj.vertices, os[k].obj.vertices))
        invariant forall k :: i <= k < |os| ==> os[k] == objs[k]
      {
        var vs := GetTransformedVerticesBy(os[i].obj, mat);
        os := os[i := Labeled(os[i].name, os[i].obj.(vertices := vs))];
        i := i + 1;
      }
      objs := os;
    }

    /** get_screen_coordinates: every object's vertices moved from NDC to the screen. */
    method GetScreenCoordinates()
      requires forall i :: 0 <= i < |objs| ==> forall j :: 1 <= j < |objs[i].obj.vertices| ==> objs[i].obj.vertices[j].Vertex?
      modifies this
      ensures cam == old(cam) && persp == old(persp) && lights == old(lights)
      ensures xres == old(xres) && yres == old(yres)
      ensures |objs| == |old(objs)|
      ensures forall i :: 0 <= i < |objs| ==> (OnlyVerticesChanged(old(objs)[i], objs[i]) &&
        ScreenedBy(xres, yres, old(objs)[i].obj.vertices, objs[i].obj.vertices))
    {
      var os := objs;
      var i := 0;
      while i < |os|
        modifies {}
        invariant 0 <= i <= |os| == |objs|
        invariant forall k :: 0 <= k < i ==> (OnlyVerticesChanged(objs[k], os[k]) &&
          ScreenedBy(xres, yres, objs[k].obj.vertices, os[k].obj.vertices))
        invariant forall k :: i <= k < |os| ==> os[k] == objs[k]
      {
        var vs := Hw2Object.GetScreenCoordinates(os[i].obj, xres, yres);
        os := os[i := Labeled(os[i].name, os[i].obj.(vertices := vs))];
        i := i + 1;
      }
      objs := os;
    }

    /** get_pixels: the union of every object's pixel set. */
    method GetPixels() returns (pixels: set<Pixel>)
      requires AllFacesInRange(objs)
      ensures pixels == ScenePixels(objs, xres, yres)
    {
      ghost var sets := ObjectPixelSets(objs, xres, yres);
      pixels := {};
      var i := 0;
      while i < |objs|
        invariant 0 <= i <= |objs|
        invariant pixels == Union(sets[..i])
      {
        assert sets[..i + 1][..i] == sets[..i];
        var objPixels := Hw2Object.GetPixels(objs[i].obj, xres, yres, AsWritten);
        pixels := pixels + objPixels;
        i := i + 1;
      }
      assert sets[..|objs|] == sets;
    }
  }
}
