/**
 * The bunny animation (hw6 Bunny_Frames keyframe.cpp and frame.h): five
 * keyframe meshes are read, and every vertex of the frames between two
 * keyframes follows the Catmull-Rom spline through the same vertex of the
 * neighbouring keyframes.
 *
 * A frame names its object through a pointer; nothing changes an object
 * once it is built, so here a frame holds the object's vertex and face
 * lists as a value.
 */
module BunnyFrames {
  import opened Wrappers
  import opened LinAlg
  import Mesh
  import opened Hw5Object
  import opened ObjWords
  import Hw5Parser
  import CatmullRom
  import opened FrameCycle

  /** An object's vertex list (NULL_VERTEX first) and face list. */
  datatype Shape = Shape(vertices: seq<Vertex>, faces: seq<Mesh.Face>)

  /** Frame(id, object, is_keyframe). */
  datatype Frame = Frame(frameId: int, isKeyframe: bool, shape: Shape)

  // ---------------------------------------------------------------- find_interpolated_vertex

  /**
   * find_interpolated_vertex: each coordinate on the spline through the
   * four control vertices. The spline is the dense product v·(B·p), so an
   * infinite coordinate of NULL_VERTEX among the controls meets a zero of B
   * (0·INFINITY) and every coordinate of the result is NaN.
   */
  function InterpolatedVertex(v0: Vertex, v1: Vertex, v2: Vertex, v3: Vertex, u: real): Vertex
  {
    if v0.Vertex? && v1.Vertex? && v2.Vertex? && v3.Vertex? then
      var p := CatmullRom.InterpolatedVec3(Pos(v0), Pos(v1), Pos(v2), Pos(v3), u);
      Vertex(p.x, p.y, p.z)
    else NaNVertex
  }

  /**
   * Between real vertices the result is v1 at u = 0 and v2 at u = 1, and
   * stays put when all four controls agree; a sentinel among the controls
   * gives the NaN vertex, never the sentinel again.
   */
  lemma InterpolatedVertexEnds(v0: Vertex, v1: Vertex, v2: Vertex, v3: Vertex, u: real)
    ensures v0.Vertex? && v1.Vertex? && v2.Vertex? && v3.Vertex? ==>
              InterpolatedVertex(v0, v1, v2, v3, 0.0) == v1 && InterpolatedVertex(v0, v1, v2, v3, 1.0) == v2
    ensures v0.Vertex? && v0 == v1 == v2 == v3 ==> InterpolatedVertex(v0, v1, v2, v3, u) == v1
    ensures !v1.Vertex? ==> InterpolatedVertex(v0, v1, v2, v3, u) == NaNVertex
  {
    if v0.Vertex? && v1.Vertex? && v2.Vertex? && v3.Vertex? {
      CatmullRom.InterpolatedVec3Ends(Pos(v0), Pos(v1), Pos(v2), Pos(v3));
      CatmullRom.InterpolatedVec3Constant(Pos(v1), u);
    }
  }

  // ---------------------------------------------------------------- find_interpolated_frame

  /** The control shapes have at least the vertices of the first one, which the loop reads from all four. */
  predicate Readable(k0: Shape, k1: Shape, k2: Shape, k3: Shape)
  {
    |k1.vertices| >= |k0.vertices| && |k2.vertices| >= |k0.vertices| && |k3.vertices| >= |k0.vertices|
  }

  /** Vertex i of the interpolated frame: the spline through vertex i of the four control shapes. */
  function VertexAt(k0: Shape, k1: Shape, k2: Shape, k3: Shape, u: real, i: nat): Vertex
    requires Readable(k0, k1, k2, k3) && i < |k0.vertices|
  {
    InterpolatedVertex(k0.vertices[i], k1.vertices[i], k2.vertices[i], k3.vertices[i], u)
  }

  /** The first n vertices of the interpolated frame. */
  function VerticesUpTo(k0: Shape, k1: Shape, k2: Shape, k3: Shape, u: real, n: nat): (vs: seq<Vertex>)
    requires Readable(k0, k1, k2, k3) && n <= |k0.vertices|
    ensures |vs| == n
    decreases n
  {
    if n == 0 then [] else VerticesUpTo(k0, k1, k2, k3, u, n - 1) + [VertexAt(k0, k1, k2, k3, u, n - 1)]
  }

  /** The frame find_interpolated_frame returns. */
  function InterpolatedFrame(k0: Frame, k1: Frame, k2: Frame, k3: Frame, u: real, id: int): Frame
    requires Readable(k0.shape, k1.shape, k2.shape, k3.shape)
  {
    var vs := VerticesUpTo(k0.shape, k1.shape, k2.shape, k3.shape, u, |k0.shape.vertices|);
    Frame(id, false, Shape(vs, k0.shape.faces))
  }

  /**
   * find_interpolated_frame: a new object with one vertex per vertex of the
   * first control frame, each on the spline through the same vertex of the
   * four control frames; the faces are the first control frame's; the
   * frame has the given id and is not a keyframe.
   */
  method FindInterpolatedFrame(k0: Frame, k1: Frame, k2: Frame, k3: Frame, u: real, id: int) returns (f: Frame)
    requires Readable(k0.shape, k1.shape, k2.shape, k3.shape)
    ensures f == InterpolatedFrame(k0, k1, k2, k3, u, id)
    ensures f.frameId == id && !f.isKeyframe && f.shape.faces == k0.shape.faces
    ensures |f.shape.vertices| == |k0.shape.vertices|
  {
    var vs: seq<Vertex> := [];
    var i := 0;
    while i < |k0.shape.vertices|
      invariant i <= |k0.shape.vertices|
      invariant vs == VerticesUpTo(k0.shape, k1.shape, k2.shape, k3.shape, u, i)
    {
      var v := InterpolatedVertex(k0.shape.vertices[i], k1.shape.vertices[i], k2.shape.vertices[i], k3.shape.vertices[i], u);
      vs := vs + [v];
      i := i + 1;
    }
    f := Frame(id, false, Shape(vs, k0.shape.faces));
  }

  /** Vertex i of the interpolated list is the spline through vertex i of the controls. */
  lemma {:induction false} VerticesUpToAt(k0: Shape, k1: Shape, k2: Shape, k3: Shape, u: real, n: nat, i: nat)
    requires Readable(k0, k1, k2, k3) && i < n <= |k0.vertices|
    ensures VerticesUpTo(k0, k1, k2, k3, u, n)[i] == VertexAt(k0, k1, k2, k3, u, i)
    decreases n
  {
    if i < n - 1 {
      VerticesUpToAt(k0, k1, k2, k3, u, n - 1, i);
    }
  }

  /** Shapes of one mesh: the same number of vertices, NULL_VERTEX first and only there. */
  predicate SameMesh(a: Shape, b: Shape)
  {
    |a.vertices| == |b.vertices| && Hw5Parser.SentinelFirst(a.vertices) && Hw5Parser.SentinelFirst(b.vertices)
  }

  /**
   * Between keyframes of one mesh, the frame at u = 0 has the vertices of
   * k1 and the frame at u = 1 those of k2, from index 1 on; when all four
   * controls are the same shape, every frame has its vertices from index 1
   * on and its faces. Slot 0 of every in-between frame is the NaN vertex.
   */
  lemma InterpolatedFrameEnds(k0: Frame, k1: Frame, k2: Frame, k3: Frame, u: real, id: int)
    requires SameMesh(k0.shape, k1.shape) && SameMesh(k0.shape, k2.shape) && SameMesh(k0.shape, k3.shape)
    ensures var vs := InterpolatedFrame(k0, k1, k2, k3, 0.0, id).shape.vertices;
              |vs| == |k1.shape.vertices| && vs[1..] == k1.shape.vertices[1..]
    ensures var vs := InterpolatedFrame(k0, k1, k2, k3, 1.0, id).shape.vertices;
              |vs| == |k2.shape.vertices| && vs[1..] == k2.shape.vertices[1..]
    ensures InterpolatedFrame(k0, k1, k2, k3, u, id).shape.vertices[0] == NaNVertex
    ensures k0.shape == k1.shape == k2.shape == k3.shape ==>
              var f := InterpolatedFrame(k0, k1, k2, k3, u, id).shape;
              f.vertices[1..] == k1.shape.vertices[1..] && f.faces == k1.shape.faces
  {
    var a, b, c, d := k0.shape, k1.shape, k2.shape, k3.shape;
    var n := |a.vertices|;
    forall i | 1 <= i < n
      ensures VerticesUpTo(a, b, c, d, 0.0, n)[i] == b.vertices[i]
      ensures VerticesUpTo(a, b, c, d, 1.0, n)[i] == c.vertices[i]
      ensures a == b == c == d ==> VerticesUpTo(a, b, c, d, u, n)[i] == b.vertices[i]
    {
      VerticesUpToAt(a, b, c, d, 0.0, n, i);
      VerticesUpToAt(a, b, c, d, 1.0, n, i);
      VerticesUpToAt(a, b, c, d, u, n, i);
      InterpolatedVertexEnds(a.vertices[i], b.vertices[i], c.vertices[i], d.vertices[i], u);
    }
    VerticesUpToAt(a, b, c, d, u, n, 0);
    InterpolatedVertexEnds(a.vertices[0], b.vertices[0], c.vertices[0], d.vertices[0], u);
  }

  // ---------------------------------------------------------------- generate_interpolated_frames

  /**
   * The keyframes generate_interpolated_frames can work on: at least one,
   * ids that never go down (a step of 1 / n with n < 0 never reaches 1),
   * and one mesh throughout.
   */
  predicate Keyframes(kf: seq<Frame>)
  {
    |kf| >= 1 &&
    (forall i :: 0 <= i < |kf| - 1 ==> kf[i].frameId <= kf[i + 1].frameId) &&
    (forall i :: 0 <= i < |kf| ==> |kf[i].shape.vertices| == |kf[0].shape.vertices|)
  }

  /** keyframes[max(0, i − 1)]: the previous keyframe, or the first one again. */
  function Before(kf: seq<Frame>, i: nat): (k: Frame)
    requires i < |kf|
    ensures i > 0 ==> k == kf[i - 1]
    ensures i == 0 ==> k == kf[0]
  {
    kf[if i - 1 > 0 then i - 1 else 0]
  }

  /** keyframes[min(size − 1, i + 2)]: the keyframe after next, or the last one again. */
  function AfterNext(kf: seq<Frame>, i: nat): (k: Frame)
    requires i < |kf|
    ensures i + 2 < |kf| ==> k == kf[i + 2]
    ensures i + 2 >= |kf| ==> k == kf[|kf| - 1]
  {
    kf[if |kf| - 1 < i + 2 then |kf| - 1 else i + 2]
  }

  /** The m-th frame between keyframes i and i + 1, at u = m / n and with id kf[i].frameId + m. */
  function Inbetween(kf: seq<Frame>, i: nat, m: nat): Frame
    requires Keyframes(kf) && i < |kf| - 1 && 1 <= m <= StepsBetween(kf, i)
  {
    var n := kf[i + 1].frameId - kf[i].frameId;
    InterpolatedFrame(Before(kf, i), kf[i], kf[i + 1], AfterNext(kf, i), CatmullRom.StepParameter(m, n), kf[i].frameId + m)
  }

  /** The first m frames between keyframes i and i + 1. */
  function InbetweensUpTo(kf: seq<Frame>, i: nat, m: nat): (fs: seq<Frame>)
    requires Keyframes(kf) && i < |kf| - 1 && m <= StepsBetween(kf, i)
    ensures |fs| == m
    decreases m
  {
    if m == 0 then [] else InbetweensUpTo(kf, i, m - 1) + [Inbetween(kf, i, m)]
  }

  /** The number of frames the u loop makes between keyframes i and i + 1. */
  function StepsBetween(kf: seq<Frame>, i: nat): nat
    requires Keyframes(kf) && i < |kf| - 1
  {
    var n := kf[i + 1].frameId - kf[i].frameId;
    if n >= 1 then n - 1 else 0
  }

  /** One pass of the outer loop: keyframe i, then every frame between it and keyframe i + 1. */
  function Segment(kf: seq<Frame>, i: nat): (fs: seq<Frame>)
    requires Keyframes(kf) && i < |kf| - 1
  {
    [kf[i]] + InbetweensUpTo(kf, i, StepsBetween(kf, i))
  }

  /** The segments of the first m keyframes, in order. */
  function Segments(kf: seq<Frame>, m: nat): seq<Frame>
    requires Keyframes(kf) && m <= |kf| - 1
    decreases m
  {
    if m == 0 then [] else Segments(kf, m - 1) + Segment(kf, m - 1)
  }

  /** Everything generate_interpolated_frames appends: every segment, then the last keyframe. */
  function Generated(kf: seq<Frame>): seq<Frame>
    requires Keyframes(kf)
  {
    Segments(kf, |kf| - 1) + [kf[|kf| - 1]]
  }

  /**
   * generate_interpolated_frames: for each keyframe but the last, appends
   * the keyframe and then the frames between it and the next one, and at
   * the end appends the last keyframe. The frame on screen does not change.
   */
  method GenerateInterpolatedFrames(anim: Animation<Frame>, kf: seq<Frame>)
    requires Keyframes(kf)
    modifies anim
    ensures anim.allFrames == old(anim.allFrames) + Generated(kf)
    ensures anim.current == old(anim.current)
  {
    var size := |kf|;
    var i := 0;
    ghost var start := anim.allFrames;
    while i < size - 1
      invariant i <= size - 1
      invariant anim.allFrames == start + Segments(kf, i)
      invariant anim.current == old(anim.current)
    {
      AddSegment(anim, kf, i);
      SegmentsStep(kf, start, i);
      i := i + 1;
    }
    anim.allFrames := anim.allFrames + [kf[size - 1]];
  }

  /** Appending segment i to the segments before it gives the segments up to i + 1. */
  lemma SegmentsStep(kf: seq<Frame>, start: seq<Frame>, i: nat)
    requires Keyframes(kf) && i < |kf| - 1
    ensures start + Segments(kf, i) + Segment(kf, i) == start + Segments(kf, i + 1)
  {
  }

  /** The body of the outer loop: appends keyframe i and the frames between it and keyframe i + 1. */
  method AddSegment(anim: Animation<Frame>, kf: seq<Frame>, i: nat)
    requires Keyframes(kf) && i < |kf| - 1
    modifies anim
    ensures anim.allFrames == old(anim.allFrames) + Segment(kf, i)
    ensures anim.current == old(anim.current)
  {
    var k1 := kf[i];
    var k2 := kf[i + 1];
    var k0 := kf[if i - 1 > 0 then i - 1 else 0];
    var k3 := kf[if |kf| - 1 < i + 2 then |kf| - 1 else i + 2];
    var n := k2.frameId - k1.frameId;
    anim.allFrames := anim.allFrames + [k1];
    var m := 1;
    while m < n
      invariant 1 <= m && (n >= 1 ==> m <= n) && (n < 1 ==> m == 1)
      invariant anim.allFrames == old(anim.allFrames) + [k1] + InbetweensUpTo(kf, i, m - 1)
      invariant anim.current == old(anim.current)
    {
      var f := FindInterpolatedFrame(k0, k1, k2, k3, m as real / n as real, k1.frameId + m);
      anim.allFrames := anim.allFrames + [f];
      m := m + 1;
    }
  }

  // ---------------------------------------------------------------- frame numbering

  /** Keyframe ids that strictly increase. */
  predicate Increasing(kf: seq<Frame>)
  {
    forall i :: 0 <= i < |kf| - 1 ==> kf[i].frameId < kf[i + 1].frameId
  }

  /** The frames between two keyframes carry the ids that follow the first one's. */
  lemma {:induction false} InbetweenIds(kf: seq<Frame>, i: nat, m: nat)
    requires Keyframes(kf) && i < |kf| - 1 && m <= StepsBetween(kf, i)
    ensures forall j :: 0 <= j < m ==> InbetweensUpTo(kf, i, m)[j].frameId == kf[i].frameId + j + 1
    ensures forall j :: 0 <= j < m ==> !InbetweensUpTo(kf, i, m)[j].isKeyframe
    decreases m
  {
    if m > 0 {
      InbetweenIds(kf, i, m - 1);
    }
  }

  /**
   * With increasing ids, the frames up to keyframe m are numbered from the
   * first keyframe's id on without a gap, and keyframe j < m sits at its
   * own id's place.
   */
  lemma {:induction false} SegmentsIds(kf: seq<Frame>, m: nat)
    requires Keyframes(kf) && Increasing(kf) && m <= |kf| - 1
    ensures |Segments(kf, m)| == kf[m].frameId - kf[0].frameId
    ensures forall p :: 0 <= p < |Segments(kf, m)| ==> Segments(kf, m)[p].frameId == kf[0].frameId + p
    ensures forall j :: 0 <= j < m ==>
              0 <= kf[j].frameId - kf[0].frameId < |Segments(kf, m)| && Segments(kf, m)[kf[j].frameId - kf[0].frameId] == kf[j]
    decreases m
  {
    if m > 0 {
      SegmentsIds(kf, m - 1);
      var i := m - 1;
      var s := Segments(kf, i);
      var seg := Segment(kf, i);
      SegmentNumbered(kf, i);
      assert Segments(kf, m) == s + seg;
      forall j | 0 <= j < m
        ensures Segments(kf, m)[kf[j].frameId - kf[0].frameId] == kf[j]
      {
        if j < i {
          IdsIncrease(kf, j, i);
        }
      }
    }
  }

  /** Segment i starts with keyframe i and numbers its frames on from keyframe i's id up to keyframe i + 1's. */
  lemma SegmentNumbered(kf: seq<Frame>, i: nat)
    requires Keyframes(kf) && Increasing(kf) && i < |kf| - 1
    ensures |Segment(kf, i)| == kf[i + 1].frameId - kf[i].frameId
    ensures forall q :: 0 <= q < |Segment(kf, i)| ==> Segment(kf, i)[q].frameId == kf[i].frameId + q
  {
    var seg := Segment(kf, i);
    InbetweenIds(kf, i, StepsBetween(kf, i));
    forall q | 0 <= q < |seg|
      ensures seg[q].frameId == kf[i].frameId + q
    {
      if q > 0 {
        assert seg[q] == InbetweensUpTo(kf, i, StepsBetween(kf, i))[q - 1];
      }
    }
  }

  /** Increasing ids: a keyframe's id is below every later keyframe's. */
  lemma {:induction false} IdsIncrease(kf: seq<Frame>, j: nat, i: nat)
    requires Increasing(kf) && j < i < |kf|
    ensures kf[j].frameId < kf[i].frameId
    decreases i - j
  {
    if j + 1 < i {
      IdsIncrease(kf, j + 1, i);
    }
  }

  /**
   * With increasing keyframe ids, the generated frames are numbered from
   * the first keyframe's id to the last one's without a gap or a repeat,
   * and every keyframe sits at the place its id names.
   */
  lemma GeneratedIds(kf: seq<Frame>)
    requires Keyframes(kf) && Increasing(kf)
    ensures |Generated(kf)| == kf[|kf| - 1].frameId - kf[0].frameId + 1
    ensures forall p :: 0 <= p < |Generated(kf)| ==> Generated(kf)[p].frameId == kf[0].frameId + p
    ensures forall j :: 0 <= j < |kf| ==>
              0 <= kf[j].frameId - kf[0].frameId < |Generated(kf)| && Generated(kf)[kf[j].frameId - kf[0].frameId] == kf[j]
  {
    SegmentsIds(kf, |kf| - 1);
  }

  // ---------------------------------------------------------------- main

  /** The object parse_object reads from a file's words. */
  function ShapeOf(ws: seq<string>, p: Parsers): Shape
  {
    var r := Hw5Parser.PlainFrom(ws, p, [NullVertex], []);
    Shape(r.0, r.1)
  }

  /**
   * The loading loop of main: object i (from 0) is read from file names[i]
   * and becomes keyframe i, with id 5·i. It fails, as create_object throws,
   * at the first file that cannot be opened.
   */
  method ReadKeyframes(files: map<string, seq<string>>, names: seq<string>, p: Parsers)
    returns (ok: bool, keyframes: seq<Frame>)
    requires |names| == 5
    ensures ok <==> forall i :: 0 <= i < 5 ==> names[i] in files
    ensures ok ==> |keyframes| == 5
    ensures ok ==> forall i :: 0 <= i < 5 ==> keyframes[i] == Frame(5 * i, true, ShapeOf(files[names[i]], p))
  {
    keyframes := [];
    var i := 1;
    while i < 6
      invariant 1 <= i <= 6 && |keyframes| == i - 1
      invariant forall j :: 0 <= j < i - 1 ==> names[j] in files && keyframes[j] == Frame(5 * j, true, ShapeOf(files[names[j]], p))
    {
      var obj := Hw5Parser.CreateObject(files, names[i - 1], p);
      if obj.None? {
        return false, keyframes;
      }
      keyframes := keyframes + [Frame((i - 1) * 5, true, Shape(obj.value.vertices, obj.value.faces))];
      i := i + 1;
    }
    return true, keyframes;
  }

  /**
   * main, before rendering: clears the frame list, reads the five keyframe
   * objects, generates every frame and shows frame 0. It stops with the
   * list empty when a file cannot be opened.
   */
  method LoadAnimation(anim: Animation<Frame>, files: map<string, seq<string>>, names: seq<string>, p: Parsers)
    returns (ok: bool, keyframes: seq<Frame>)
    requires |names| == 5
    requires forall i :: 0 <= i < 5 && names[0] in files && names[i] in files ==>
               |ShapeOf(files[names[i]], p).vertices| == |ShapeOf(files[names[0]], p).vertices|
    modifies anim
    ensures ok <==> forall i :: 0 <= i < 5 ==> names[i] in files
    ensures ok ==> |keyframes| == 5 && forall i :: 0 <= i < 5 ==> keyframes[i] == Frame(5 * i, true, ShapeOf(files[names[i]], p))
    ensures ok ==> Keyframes(keyframes) && anim.allFrames == Generated(keyframes) && anim.current == 0
    ensures !ok ==> anim.allFrames == []
  {
    anim.allFrames := [];
    ok, keyframes := ReadKeyframes(files, names, p);
    if !ok {
      return;
    }
    GenerateInterpolatedFrames(anim, keyframes);
    anim.current := 0;
  }

  /**
   * The bunny program's animation: 21 frames numbered 0 .. 20, with the
   * five keyframes at 0, 5, 10, 15 and 20 and four frames between each two.
   */
  lemma BunnyAnimation(kf: seq<Frame>)
    requires Keyframes(kf) && |kf| == 5 && forall i :: 0 <= i < 5 ==> kf[i].frameId == 5 * i
    ensures |Generated(kf)| == 21
    ensures forall p :: 0 <= p < 21 ==> Generated(kf)[p].frameId == p
    ensures forall i :: 0 <= i < 5 ==> Generated(kf)[5 * i] == kf[i]
  {
    GeneratedIds(kf);
  }
}
