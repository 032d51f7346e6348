/**
 * The camera shared by the wireframe and shaded renderers (hw1 and hw2
 * scene.h / scene.cpp): a position, an orientation axis and an angle, and
 * the camera transformation, a rotation about the axis followed by a
 * translation to the position.
 */
module Viewing {
  import opened LinAlg
  import opened Hw1Transform

  /** Camera(p, o, angle): position p, orientation axis o, angle in radians. */
  datatype Camera = Camera(p: Vec3, o: Vec3, angle: real)

  /** Camera(): everything zero. */
  const DefaultCamera: Camera := Camera(Zero3, Zero3, 0.0)

  /** The list the camera transformation holds: the rotation, then the translation. */
  function CameraTransforms(m: Math, cam: Camera): (ts: seq<Mat4>)
    ensures |ts| == 2
  {
    [Rotation(m, cam.o, cam.angle), Translation(cam.p)]
  }

  /**
   * compute_camera_matrix (hw1) / compute_camera_transform (hw2): a new
   * transformation holding exactly two entries, rotation first.
   */
  method ComputeCameraMatrix(m: Math, cam: Camera) returns (t: Transformation)
    ensures fresh(t)
    ensures t.ts == [Rotation(m, cam.o, cam.angle), Translation(cam.p)]
  {
    t := new Transformation();
    t.AddRotation(m, cam.o, cam.angle);
    t.AddTranslation(cam.p);
  }

  /** The inverse of the camera transformation's product: world space to camera space. */
  function WorldToCamera(m: Math, cam: Camera): Mat4
  {
    m.inverse(ProductLastFirst(CameraTransforms(m, cam)))
  }

  /** compute_camera_transform().compute_product().inverse(), as the shaded renderer computes it. */
  method WorldToCameraMatrix(m: Math, cam: Camera) returns (w: Mat4)
    ensures w == WorldToCamera(m, cam)
  {
    var t := ComputeCameraMatrix(m, cam);
    var prod := t.ComputeProduct();
    w := m.inverse(prod);
  }

  /**
   * The camera's product T·R rotates first and translates second, so it
   * places the camera-space origin at the camera position, and a point
   * on the (unit) orientation axis at that point moved by the position.
   */
  lemma CameraSitsAtPosition(m: Math, cam: Camera)
    ensures Apply(ProductLastFirst(CameraTransforms(m, cam)), Point(Zero3)) == Point(cam.p)
    ensures Dot3(cam.o, cam.o) == 1.0 ==>
      Apply(ProductLastFirst(CameraTransforms(m, cam)), Point(cam.o)) == Point(Add3(cam.o, cam.p))
  {
    var r := Rotation(m, cam.o, cam.angle);
    assert CameraTransforms(m, cam) == [r, Translation(cam.p)];
    OriginToTranslation(r, cam.p);
    if Dot3(cam.o, cam.o) == 1.0 {
      RotationFixesAxis(m, cam.o, cam.angle, 1.0);
      FixedPointIsTranslated(r, cam.p, cam.o);
    }
  }

  /** For a linear R (no translation part, last row (0, 0, 0, 1)), [R, T] sends the origin to T's offset. */
  lemma OriginToTranslation(r: Mat4, p: Vec3)
    requires r.r3 == Vec4(0.0, 0.0, 0.0, 1.0)
    requires r.r0.w == 0.0 && r.r1.w == 0.0 && r.r2.w == 0.0
    ensures Apply(ProductLastFirst([r, Translation(p)]), Point(Zero3)) == Point(p)
  {
    var t := Translation(p);
    ProductOfTwo(r, t, Point(Zero3));
    LinearPartFixesOrigin(r);
    assert Apply(t, Point(Zero3)) == Point(Add3(Zero3, p));
  }

  /** A point R fixes is moved by [R, T] by T's offset. */
  lemma FixedPointIsTranslated(r: Mat4, p: Vec3, o: Vec3)
    requires Apply(r, Point(o)) == Point(o)
    ensures Apply(ProductLastFirst([r, Translation(p)]), Point(o)) == Point(Add3(o, p))
  {
    var t := Translation(p);
    ProductOfTwo(r, t, Point(o));
    assert Apply(t, Point(o)) == Point(Add3(o, p));
  }

  /** The product of the list [a, b] applies a, then b. */
  lemma ProductOfTwo(a: Mat4, b: Mat4, v: Vec4)
    ensures ProductLastFirst([a, b]) == Mul(b, Mul(a, Identity))
    ensures Apply(ProductLastFirst([a, b]), v) == Apply(b, Apply(a, v))
  {
    var ts := [a, b];
    assert ts[..1] == [a] && ts[..1][..0] == [];
    assert ProductLastFirst(ts[..1]) == Mul(a, Identity);
    assert ProductLastFirst(ts) == Mul(b, ProductLastFirst(ts[..1]));
    ApplyMul(b, Mul(a, Identity), v);
    ApplyMul(a, Identity, v);
    ApplyIdentity(v);
  }

  /** A matrix with no translation part and last row (0, 0, 0, 1) keeps the origin. */
  lemma LinearPartFixesOrigin(r: Mat4)
    requires r.r3 == Vec4(0.0, 0.0, 0.0, 1.0)
    requires r.r0.w == 0.0 && r.r1.w == 0.0 && r.r2.w == 0.0
    ensures Apply(r, Point(Zero3)) == Point(Zero3)
  {
  }

  /**
   * When the library inverse really inverts the camera product, the camera
   * position lands on the origin of camera space.
   */
  lemma InverseCameraCentresPosition(m: Math, cam: Camera)
    requires Mul(m.inverse(ProductLastFirst(CameraTransforms(m, cam))), ProductLastFirst(CameraTransforms(m, cam))) == Identity
    ensures Apply(m.inverse(ProductLastFirst(CameraTransforms(m, cam))), Point(cam.p)) == Point(Zero3)
  {
    var c := ProductLastFirst(CameraTransforms(m, cam));
    CameraSitsAtPosition(m, cam);
    ApplyMul(m.inverse(c), c, Point(Zero3));
    IdentityIsUnit(c, Point(Zero3));
  }
}
