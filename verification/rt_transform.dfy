/**
 * The ray tracer's transformation objects (hw7 transform.h / transform.cpp):
 * a rotation about a unit axis by an angle in degrees, a translation and a
 * non-uniform scaling. Each is a class whose setters assign its fields; a scene
 * node keeps a `Transform` value, the snapshot of one such object.
 */
module RtTransform {
  import opened LinAlg

  /** The fields of one transformation object, as a value. */
  datatype Transform =
    | RotateBy(axis: Vec3, angle: real)
    | TranslateBy(delta: Vec3)
    | ScaleBy(factors: Vec3)

  /**
   * Rotate::GetMatrix: the axis-angle rotation matrix for an angle given in
   * degrees. Its last row and last column are those of an affine map, and a
   * zero angle gives the identity whatever the axis.
   */
  function RotationMatrix(m: Math, axis: Vec3, angle: real): (r: Mat4)
    ensures r.r3 == Vec4(0.0, 0.0, 0.0, 1.0)
    ensures r.r0.w == 0.0 && r.r1.w == 0.0 && r.r2.w == 0.0
  {
    Rotation(m, axis, angle * PI / 180.0)
  }

  /** A rotation by zero degrees is the identity, for any axis. */
  lemma ZeroRotationIsIdentity(m: Math, axis: Vec3)
    requires m.cos(0.0) == 1.0 && m.sin(0.0) == 0.0
    ensures RotationMatrix(m, axis, 0.0) == Identity
  {
    assert 0.0 * PI / 180.0 == 0.0;
    RotationByZero(m, axis);
  }

  /** GetMatrix of the object a `Transform` value describes. */
  function MatrixOf(m: Math, t: Transform): (r: Mat4)
    ensures r.r3 == Vec4(0.0, 0.0, 0.0, 1.0)
  {
    match t
    case RotateBy(axis, angle) => RotationMatrix(m, axis, angle)
    case TranslateBy(delta) => Translation(delta)
    case ScaleBy(factors) => Scaling(factors)
  }

  class Rotate {
    var axisX: real
    var axisY: real
    var axisZ: real
    var angle: real

    /** The default rotation: zero degrees about the x axis. */
    constructor Default()
      ensures GetAxis() == Vec3(1.0, 0.0, 0.0) && GetAngle() == 0.0
    {
      axisX, axisY, axisZ, angle := 1.0, 0.0, 0.0, 0.0;
    }

    /**
     * Rotate(x, y, z, angle) stores the axis divided by its length, so that
     * multiplying the stored axis back by that length gives (x, y, z). The
     * source never assigns the angle, so nothing is promised about it.
     */
    constructor (m: Math, x: real, y: real, z: real, theta: real)
      requires SqrtLaw(m) && Dot3(Vec3(x, y, z), Vec3(x, y, z)) > 0.0
      ensures GetAxis() == Normalized(m, Vec3(x, y, z))
      ensures Scale3(Norm3(m, Vec3(x, y, z)), GetAxis()) == Vec3(x, y, z)
    {
      var a := Normalized(m, Vec3(x, y, z));
      axisX, axisY, axisZ := a.x, a.y, a.z;
    }

    function GetAngle(): real
      reads this
    {
      angle
    }

    function GetAxis(): Vec3
      reads this
    {
      Vec3(axisX, axisY, axisZ)
    }

    /** The value a scene node keeps for this object. */
    function Value(): (t: Transform)
      reads this
      ensures t.RotateBy? && t.axis == GetAxis() && t.angle == GetAngle()
    {
      RotateBy(GetAxis(), angle)
    }

    /** The rotation matrix; the default rotation gives the identity. */
    function GetMatrix(m: Math): (r: Mat4)
      reads this
      ensures r == MatrixOf(m, Value())
      ensures r.r3 == Vec4(0.0, 0.0, 0.0, 1.0)
    {
      RotationMatrix(m, GetAxis(), angle)
    }

    /** SetAxisAngle stores the normalised axis and the given angle. */
    method SetAxisAngle(m: Math, axis: Vec3, theta: real)
      requires SqrtLaw(m)
      modifies this
      ensures GetAxis() == Normalized(m, axis) && GetAngle() == theta
    {
      var a := Normalized(m, axis);
      axisX, axisY, axisZ := a.x, a.y, a.z;
      angle := theta;
    }
  }

  class Translate {
    var deltaX: real
    var deltaY: real
    var deltaZ: real

    /** The default translation is by zero, so its matrix is the identity. */
    constructor Default()
      ensures GetDelta() == Zero3
      ensures GetMatrix() == Identity
    {
      deltaX, deltaY, deltaZ := 0.0, 0.0, 0.0;
      new;
      assert GetDelta() == Zero3;
      TrivialTransformsAreIdentity();
    }

    constructor (dx: real, dy: real, dz: real)
      ensures GetDelta() == Vec3(dx, dy, dz)
    {
      deltaX, deltaY, deltaZ := dx, dy, dz;
    }

    function GetDelta(): Vec3
      reads this
    {
      Vec3(deltaX, deltaY, deltaZ)
    }

    function Value(): (t: Transform)
      reads this
      ensures t.TranslateBy? && t.delta == GetDelta()
    {
      TranslateBy(GetDelta())
    }

    /** The matrix maps (x, y, z, 1) to (x + dx, y + dy, z + dz, 1). */
    function GetMatrix(): (r: Mat4)
      reads this
      ensures forall p :: Apply(r, Point(p)) == Point(Add3(p, GetDelta()))
    {
      Translation(GetDelta())
    }

    /** After SetDelta(d), GetDelta() returns d. */
    method SetDelta(d: Vec3)
      modifies this
      ensures GetDelta() == d
    {
      deltaX, deltaY, deltaZ := d.x, d.y, d.z;
    }
  }

  class Scale {
    var scaleX: real
    var scaleY: real
    var scaleZ: real

    /** The default scaling is by one, so its matrix is the identity. */
    constructor Default()
      ensures GetScale() == Vec3(1.0, 1.0, 1.0)
      ensures GetMatrix() == Identity
    {
      scaleX, scaleY, scaleZ := 1.0, 1.0, 1.0;
      new;
      assert GetScale() == Vec3(1.0, 1.0, 1.0);
      TrivialTransformsAreIdentity();
    }

    constructor (sx: real, sy: real, sz: real)
      ensures GetScale() == Vec3(sx, sy, sz)
    {
      scaleX, scaleY, scaleZ := sx, sy, sz;
    }

    function GetScale(): Vec3
      reads this
    {
      Vec3(scaleX, scaleY, scaleZ)
    }

    function Value(): (t: Transform)
      reads this
      ensures t.ScaleBy? && t.factors == GetScale()
    {
      ScaleBy(GetScale())
    }

    /** The matrix is diag(sx, sy, sz, 1). */
    function GetMatrix(): (r: Mat4)
      reads this
      ensures forall v :: Apply(r, v) == Stretch(GetScale(), v)
    {
      Scaling(GetScale())
    }

    /** After SetScale(s), GetScale() returns s. */
    method SetScale(s: Vec3)
      modifies this
      ensures GetScale() == s
    {
      scaleX, scaleY, scaleZ := s.x, s.y, s.z;
    }
  }
}
