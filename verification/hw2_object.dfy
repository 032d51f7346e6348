/**
 * The shaded renderer's objects (hw2 object.cpp): the homogeneous divide,
 * the NDC containment test, the NDC-to-screen mapping, the screen vertex
 * list, the wireframe pixel set of an object and the transformed vertex
 * lists.
 */
module Hw2Object {
  import opened LinAlg
  import opened Mesh
  import opened Bresenham

  /** An object: vertex list (sentinel first), faces, and its transformation list. */
  datatype Object = Object(vertices: seq<Vertex>, faces: seq<Face>, transforms: seq<Mat4>)

  /**
   * Vertex::to_cartesian: the same projective point scaled to w = 1. The
   * sentinel's infinite coordinates stay infinite, so it stays the sentinel.
   */
  function ToCartesian(v: Vertex): (r: Vertex)
    requires v.Vertex? ==> v.w != 0.0
    ensures v.NullVertex? ==> r == NullVertex
    ensures v.Vertex? ==> r.Vertex? && r.w == 1.0
    ensures v.Vertex? ==> r.x * v.w == v.x && r.y * v.w == v.y && r.z * v.w == v.z
  {
    match v
    case NullVertex => NullVertex
    case Vertex(x, y, z, w) => Vertex(x / w, y / w, z / w, 1.0)
  }

  /**
   * Homogeneous coordinates that differ by a nonzero factor name the same
   * point, and dividing twice changes nothing.
   */
  lemma ToCartesianOfMultiple(v: Vertex, c: real)
    requires v.Vertex? && v.w != 0.0 && c != 0.0
    ensures ToCartesian(Vertex(c * v.x, c * v.y, c * v.z, c * v.w)) == ToCartesian(v)
    ensures ToCartesian(ToCartesian(v)) == ToCartesian(v)
  {
    CancelFactor(v.x, v.w, c);
    CancelFactor(v.y, v.w, c);
    CancelFactor(v.z, v.w, c);
  }

  lemma CancelFactor(a: real, w: real, c: real)
    requires w != 0.0 && c != 0.0
    ensures (c * a) / (c * w) == a / w
  {
    var q := a / w;
    assert q * w == a;
    assert q * (c * w) == c * a;
  }

  /** Vertex::is_contained: inside the square [-1, 1]^2 of NDC; depth and w play no part. */
  predicate IsContained(v: Vertex)
  {
    v.Vertex? && -1.0 <= v.x <= 1.0 && -1.0 <= v.y <= 1.0
  }

  /** Containment looks at x and y only, and the sentinel is never contained. */
  lemma ContainmentIgnoresDepth(v: Vertex, z: real, w: real)
    ensures v.Vertex? ==> (IsContained(v) <==> IsContained(Vertex(v.x, v.y, z, w)))
    ensures !IsContained(NullVertex)
  {
  }

  /** The screen column of NDC x: floor((x + 1)·xres/2). */
  function ScreenX(x: real, xres: int): int
  {
    ((x + 1.0) * xres as real * 0.5).Floor
  }

  /** The screen row of NDC y, flipped so that NDC y = 1 is row 0: floor(yres - (y + 1)·yres/2). */
  function ScreenY(y: real, yres: int): int
  {
    (yres as real - (y + 1.0) * yres as real * 0.5).Floor
  }

  /** Vertex::to_screen_coordinates: x and y on the pixel grid, z and w kept. */
  function ToScreen(v: Vertex, xres: int, yres: int): (r: Vertex)
    requires v.Vertex?
    ensures r.Vertex? && r.z == v.z && r.w == v.w
    ensures r.x == ScreenX(v.x, xres) as real && r.y == ScreenY(v.y, yres) as real
  {
    Vertex(ScreenX(v.x, xres) as real, ScreenY(v.y, yres) as real, v.z, v.w)
  }

  /** A contained vertex lands in columns 0 .. xres and rows 0 .. yres, both ends included. */
  lemma ScreenBounds(v: Vertex, xres: int, yres: int)
    requires xres >= 0 && yres >= 0 && IsContained(v)
    ensures 0 <= ScreenX(v.x, xres) <= xres && 0 <= ScreenY(v.y, yres) <= yres
  {
    ScaledFloorBetween(v.x + 1.0, xres);
    ScaledFloorBetween(v.y + 1.0, yres);
  }

  lemma ScaledFloorBetween(t: real, n: int)
    requires 0.0 <= t <= 2.0 && n >= 0
    ensures 0 <= (t * n as real * 0.5).Floor <= n
    ensures 0 <= (n as real - t * n as real * 0.5).Floor <= n
  {
    HalfScaleBetween(t, n as real);
    var s := t * n as real * 0.5;
    FloorBetween(s, n);
    FloorBetween(n as real - s, n);
  }

  lemma FloorBetween(x: real, n: int)
    requires 0.0 <= x <= n as real
    ensures 0 <= x.Floor <= n
  {
  }

  /** The mapping keeps the order of x and reverses that of y. */
  lemma ScreenMonotone(a: real, b: real, res: int)
    requires a <= b && res >= 0
    ensures ScreenX(a, res) <= ScreenX(b, res)
    ensures ScreenY(b, res) <= ScreenY(a, res)
  {
    HalfScaleMonotone(a + 1.0, b + 1.0, res as real);
  }

  lemma HalfScaleBetween(t: real, n: real)
    requires 0.0 <= t <= 2.0 && n >= 0.0
    ensures 0.0 <= t * n * 0.5 <= n
  {
    assert t * n <= 2.0 * n;
  }

  lemma HalfScaleMonotone(s: real, t: real, n: real)
    requires s <= t && n >= 0.0
    ensures s * n * 0.5 <= t * n * 0.5
  {
    assert s * n <= t * n;
  }

  /** NDC (-1, 1) is the top-left cell (0, 0); NDC (1, -1) maps to column xres and row yres. */
  lemma ScreenCorners(xres: int, yres: int)
    ensures ScreenX(-1.0, xres) == 0 && ScreenY(1.0, yres) == 0
    ensures ScreenX(1.0, xres) == xres && ScreenY(-1.0, yres) == yres
  {
  }

  // ---------------------------------------------------------------- loops over an object

  /**
   * Object::get_screen_coordinates: the sentinel, then the screen position
   * of every vertex after it, so the list is as long as the vertex list
   * (which always holds at least the sentinel).
   */
  method GetScreenCoordinates(obj: Object, xres: int, yres: int) returns (screen: seq<Vertex>)
    requires forall i :: 1 <= i < |obj.vertices| ==> obj.vertices[i].Vertex?
    ensures |screen| == if |obj.vertices| == 0 then 1 else |obj.vertices|
    ensures screen[0] == NullVertex
    ensures forall i :: 1 <= i < |obj.vertices| ==> screen[i] == ToScreen(obj.vertices[i], xres, yres)
  {
    var n := |obj.vertices|;
    screen := [NullVertex];
    var i := 1;
    while i < n
      invariant 1 <= i <= if n == 0 then 1 else n
      invariant |screen| == i && screen[0] == NullVertex
      invariant forall k :: 1 <= k < i ==> screen[k] == ToScreen(obj.vertices[k], xres, yres)
    {
      screen := screen + [ToScreen(obj.vertices[i], xres, yres)];
      i := i + 1;
    }
  }

  /**
   * Which line drawer get_pixels calls: the program's generalized_bresenham
   * as written, which draws nothing for a vertical line drawn upwards or a
   * horizontal line drawn leftwards, or the corrected drawer with the
   * widened swap guards.
   */
  datatype Drawer = AsWritten | Corrected

  /** The pixels the drawer d puts down for a line from (x0, y0) to (x1, y1). */
  function Line(d: Drawer, x0: int, y0: int, x1: int, y1: int): set<Pixel>
  {
    match d
    case AsWritten => Segment(x0, y0, x1, y1)
    case Corrected => FixedSegment(x0, y0, x1, y1)
  }

  /** generalized_bresenham, or its corrected form, adding the line's pixels to a set. */
  method DrawLine(d: Drawer, x0: int, y0: int, x1: int, y1: int, pixels: set<Pixel>) returns (result: set<Pixel>)
    ensures result == pixels + Line(d, x0, y0, x1, y1)
  {
    match d
    case AsWritten => result := GeneralizedBresenham(x0, y0, x1, y1, pixels);
    case Corrected => result := FixedBresenham(x0, y0, x1, y1, pixels);
  }

  /** The pixels of the edge from u to v: drawn only when both ends are contained. */
  function EdgePixels(d: Drawer, u: Vertex, v: Vertex, xres: int, yres: int): set<Pixel>
  {
    if IsContained(u) && IsContained(v) then
      Line(d, ScreenX(u.x, xres), ScreenY(u.y, yres), ScreenX(v.x, xres), ScreenY(v.y, yres))
    else {}
  }

  /** The three edges of a face: v1-v2, v2-v3 and v1-v3. */
  function FacePixels(d: Drawer, vs: seq<Vertex>, f: Face, xres: int, yres: int): set<Pixel>
    requires 0 <= f.i1 < |vs| && 0 <= f.i2 < |vs| && 0 <= f.i3 < |vs|
  {
    EdgePixels(d, vs[f.i1], vs[f.i2], xres, yres) + EdgePixels(d, vs[f.i2], vs[f.i3], xres, yres) +
    EdgePixels(d, vs[f.i1], vs[f.i3], xres, yres)
  }

  /** The union of the first faces' edge pixels. */
  function FacesPixels(d: Drawer, vs: seq<Vertex>, fs: seq<Face>, xres: int, yres: int): set<Pixel>
    requires FacesInRange(vs, fs)
  {
    if fs == [] then {}
    else FacesPixels(d, vs, fs[..|fs| - 1], xres, yres) + FacePixels(d, vs, fs[|fs| - 1], xres, yres)
  }

  /**
   * Object::get_pixels: the union over the faces of their three edges, each
   * drawn only when both of its ends are inside the NDC square. The program
   * is d = AsWritten; d = Corrected is the same loop with the corrected
   * line drawer.
   */
  method GetPixels(obj: Object, xres: int, yres: int, d: Drawer) returns (pixels: set<Pixel>)
    requires FacesInRange(obj.vertices, obj.faces)
    ensures pixels == FacesPixels(d, obj.vertices, obj.faces, xres, yres)
  {
    var vs := obj.vertices;
    pixels := {};
    var i := 0;
    while i < |obj.faces|
      invariant 0 <= i <= |obj.faces|
      invariant pixels == FacesPixels(d, vs, obj.faces[..i], xres, yres)
    {
      pixels := AddFace(d, vs, obj.faces[i], xres, yres, pixels);
      FacesPixelsStep(d, vs, obj.faces, i, xres, yres);
      i := i + 1;
    }
    assert obj.faces[..|obj.faces|] == obj.faces;
  }

  /** The pixels of the first i + 1 faces are those of the first i and of face i. */
  lemma FacesPixelsStep(d: Drawer, vs: seq<Vertex>, fs: seq<Face>, i: int, xres: int, yres: int)
    requires FacesInRange(vs, fs) && 0 <= i < |fs|
    ensures FacesInRange(vs, fs[..i]) && FacesInRange(vs, fs[..i + 1])
    ensures FacesPixels(d, vs, fs[..i + 1], xres, yres) == FacesPixels(d, vs, fs[..i], xres, yres) + FacePixels(d, vs, fs[i], xres, yres)
  {
    assert fs[..i + 1][..i] == fs[..i];
  }

  /** One iteration of get_pixels: the face's three edges, each only when both ends are contained. */
  method AddFace(d: Drawer, vs: seq<Vertex>, f: Face, xres: int, yres: int, pixels: set<Pixel>) returns (result: set<Pixel>)
    requires 0 <= f.i1 < |vs| && 0 <= f.i2 < |vs| && 0 <= f.i3 < |vs|
    ensures result == pixels + FacePixels(d, vs, f, xres, yres)
  {
    var v1, v2, v3 := vs[f.i1], vs[f.i2], vs[f.i3];
    result := pixels;
    if IsContained(v1) && IsContained(v2) {
      var p1 := ToScreen(v1, xres, yres);
      var p2 := ToScreen(v2, xres, yres);
      result := DrawLine(d, p1.x.Floor, p1.y.Floor, p2.x.Floor, p2.y.Floor, result);
    }
    if IsContained(v2) && IsContained(v3) {
      var p2 := ToScreen(v2, xres, yres);
      var p3 := ToScreen(v3, xres, yres);
      result := DrawLine(d, p2.x.Floor, p2.y.Floor, p3.x.Floor, p3.y.Floor, result);
    }
    if IsContained(v1) && IsContained(v3) {
      var p3 := ToScreen(v3, xres, yres);
      var p1 := ToScreen(v1, xres, yres);
      result := DrawLine(d, p1.x.Floor, p1.y.Floor, p3.x.Floor, p3.y.Floor, result);
    }
  }

  /**
   * As written, an edge whose second end lies straight above the first on
   * the screen is lost: no pixel is drawn for it, while the corrected
   * drawer draws the column between the two ends, both included.
   */
  lemma UpwardEdgeLost(u: Vertex, v: Vertex, xres: int, yres: int)
    requires IsContained(u) && IsContained(v)
    requires ScreenX(u.x, xres) == ScreenX(v.x, xres) && ScreenY(v.y, yres) < ScreenY(u.y, yres)
    ensures EdgePixels(AsWritten, u, v, xres, yres) == {}
    ensures (ScreenX(u.x, xres), ScreenY(u.y, yres)) in EdgePixels(Corrected, u, v, xres, yres)
    ensures (ScreenX(v.x, xres), ScreenY(v.y, yres)) in EdgePixels(Corrected, u, v, xres, yres)
  {
    VerticalSegmentDirections(ScreenX(u.x, xres), ScreenY(v.y, yres), ScreenY(u.y, yres));
  }

  /**
   * Such an edge: in a 10 by 10 window, NDC (0, -0.6) to (0, 0) is screen
   * column 5 from row 8 up to row 5.
   */
  lemma UpwardEdgeExample()
    ensures IsContained(Vertex(0.0, -0.6, 0.0, 1.0)) && IsContained(Vertex(0.0, 0.0, 0.0, 1.0))
    ensures ScreenX(0.0, 10) == 5 && ScreenY(-0.6, 10) == 8 && ScreenY(0.0, 10) == 5
  {
    assert (0.0 + 1.0) * 10 as real * 0.5 == 5.0;
    assert 10 as real - (-0.6 + 1.0) * 10 as real * 0.5 == 8.0;
    assert 10 as real - (0.0 + 1.0) * 10 as real * 0.5 == 5.0;
  }

  /** A vertical segment is drawn from its lower row to its higher one, and nothing is drawn the other way. */
  lemma VerticalSegmentDirections(x: int, a: int, b: int)
    requires a < b
    ensures Segment(x, b, x, a) == {}
    ensures (x, a) in Segment(x, a, x, b) && (x, b) in Segment(x, a, x, b)
  {
    SegmentStart(x, b, x, a);
    SegmentEnds(x, a, x, b);
  }


  /**
   * With the corrected drawer an edge is drawn whichever way round its ends
   * are listed, and it is exactly the program's edge wherever the program
   * draws one.
   */
  lemma CorrectedEdgeSymmetric(u: Vertex, v: Vertex, xres: int, yres: int)
    ensures EdgePixels(Corrected, u, v, xres, yres) == EdgePixels(Corrected, v, u, xres, yres)
    ensures EdgePixels(AsWritten, u, v, xres, yres) != {} ==>
              EdgePixels(Corrected, u, v, xres, yres) == EdgePixels(AsWritten, u, v, xres, yres)
  {
    if IsContained(u) && IsContained(v) {
      var x0, y0, x1, y1 := ScreenX(u.x, xres), ScreenY(u.y, yres), ScreenX(v.x, xres), ScreenY(v.y, yres);
      FixedSegmentSymmetric(x0, y0, x1, y1);
      SegmentStart(x0, y0, x1, y1);
    }
  }

  /** A corrected segment stays in the bounding box of its endpoints. */
  lemma FixedSegmentInBox(x0: int, y0: int, x1: int, y1: int, p: Pixel)
    requires p in FixedSegment(x0, y0, x1, y1)
    ensures Min(x0, x1) <= p.0 <= Max(x0, x1) && Min(y0, y1) <= p.1 <= Max(y0, y1)
  {
    var dx, dy := x1 - x0, y1 - y0;
    if (dx == 0 && dy < 0) || (dx < 0 && dy == 0) {
      SegmentInBox(x1, y1, x0, y0, p);
    } else {
      SegmentInBox(x0, y0, x1, y1, p);
    }
  }

  /**
   * Every pixel get_pixels reports, with either drawer, lies in columns
   * 0 .. xres and rows 0 .. yres: the last column and row are one past a
   * grid of xres by yres cells.
   */
  lemma {:induction false} PixelsOnScreen(d: Drawer, vs: seq<Vertex>, fs: seq<Face>, xres: int, yres: int, p: Pixel)
    requires FacesInRange(vs, fs) && xres >= 0 && yres >= 0
    requires p in FacesPixels(d, vs, fs, xres, yres)
    ensures 0 <= p.0 <= xres && 0 <= p.1 <= yres
  {
    var init := fs[..|fs| - 1];
    assert FacesInRange(vs, init) by {
      forall k | 0 <= k < |init| ensures 0 <= init[k].i1 < |vs| && 0 <= init[k].i2 < |vs| && 0 <= init[k].i3 < |vs| {
        assert init[k] == fs[k];
      }
    }
    if p in FacesPixels(d, vs, init, xres, yres) {
      PixelsOnScreen(d, vs, init, xres, yres, p);
    } else {
      var f := fs[|fs| - 1];
      var u, v := vs[f.i1], vs[f.i2];
      if p in EdgePixels(d, vs[f.i2], vs[f.i3], xres, yres) {
        u, v := vs[f.i2], vs[f.i3];
      } else if p in EdgePixels(d, vs[f.i1], vs[f.i3], xres, yres) {
        u, v := vs[f.i1], vs[f.i3];
      }
      EdgeOnScreen(d, u, v, xres, yres, p);
    }
  }

  lemma EdgeOnScreen(d: Drawer, u: Vertex, v: Vertex, xres: int, yres: int, p: Pixel)
    requires xres >= 0 && yres >= 0 && p in EdgePixels(d, u, v, xres, yres)
    ensures 0 <= p.0 <= xres && 0 <= p.1 <= yres
  {
    ScreenBounds(u, xres, yres);
    ScreenBounds(v, xres, yres);
    var x0, y0, x1, y1 := ScreenX(u.x, xres), ScreenY(u.y, yres), ScreenX(v.x, xres), ScreenY(v.y, yres);
    match d
    case AsWritten => SegmentInBox(x0, y0, x1, y1, p);
    case Corrected => FixedSegmentInBox(x0, y0, x1, y1, p);
  }

  // ---------------------------------------------------------------- transformed vertex lists

  /** The image of one vertex: M·v, then the homogeneous divide. */
  function TransformVertex(m: Mat4, v: Vertex): (r: Vertex)
    requires v.Vertex? && Apply(m, ToColVector(v)).w != 0.0
    ensures r.Vertex? && r.w == 1.0
  {
    ToCartesian(ToVertex(Apply(m, ToColVector(v))))
  }

  /** Every vertex after the sentinel can be transformed by m without a zero w. */
  predicate Transformable(m: Mat4, vs: seq<Vertex>)
  {
    forall i :: 1 <= i < |vs| ==> vs[i].Vertex? && Apply(m, ToColVector(vs[i])).w != 0.0
  }

  /**
   * get_transformed_vertices(obj, M): the sentinel, then M·v divided by its
   * w for every later vertex; the list keeps its length and every entry
   * after the sentinel has w = 1.
   */
  method GetTransformedVerticesBy(obj: Object, m: Mat4) returns (r: seq<Vertex>)
    requires Transformable(m, obj.vertices)
    ensures |r| == if |obj.vertices| == 0 then 1 else |obj.vertices|
    ensures r[0] == NullVertex
    ensures forall i :: 1 <= i < |obj.vertices| ==> r[i] == TransformVertex(m, obj.vertices[i])
    ensures forall i :: 1 <= i < |r| ==> r[i].Vertex? && r[i].w == 1.0
  {
    var n := |obj.vertices|;
    r := [NullVertex];
    var i := 1;
    while i < n
      invariant 1 <= i <= if n == 0 then 1 else n
      invariant |r| == i && r[0] == NullVertex
      invariant forall k :: 1 <= k < i ==> r[k] == TransformVertex(m, obj.vertices[k])
    {
      var col := ToColVector(obj.vertices[i]);
      var fin := Apply(m, col);
      var finalV := ToCartesian(ToVertex(fin));
      r := r + [finalV];
      i := i + 1;
    }
  }

  /**
   * get_transformed_vertices(obj): the same with the object's own product
   * Tk·…·T1, recomputed for every vertex as the source does.
   */
  method GetTransformedVertices(obj: Object) returns (r: seq<Vertex>)
    requires Transformable(ProductLastFirst(obj.transforms), obj.vertices)
    ensures |r| == if |obj.vertices| == 0 then 1 else |obj.vertices|
    ensures r[0] == NullVertex
    ensures forall i :: 1 <= i < |obj.vertices| ==> r[i] == TransformVertex(ProductLastFirst(obj.transforms), obj.vertices[i])
  {
    var n := |obj.vertices|;
    r := [NullVertex];
    var i := 1;
    while i < n
      invariant 1 <= i <= if n == 0 then 1 else n
      invariant |r| == i && r[0] == NullVertex
      invariant forall k :: 1 <= k < i ==> r[k] == TransformVertex(ProductLastFirst(obj.transforms), obj.vertices[k])
    {
      var prod := MultiplyLastFirst(obj.transforms);
      var fin := Apply(prod, ToColVector(obj.vertices[i]));
      r := r + [ToCartesian(ToVertex(fin))];
      i := i + 1;
    }
  }
}
