/**
 * The ray tracer's scene objects (hw7 object.h / object.cpp): materials,
 * superquadric leaves and assemblies, rays and intersections.
 *
 * A scene node is a value: a superquadric with its exponents, tessellation
 * patch counts and material, or an assembly of child nodes, each with the
 * list of transformation values applied to it (first element applied first).
 * A ray is a value too, and `MutableRay` is the object whose `Transform` and
 * `Normalize` update its two fields in place.
 */
module RtObject {
  import opened LinAlg
  import opened RtTransform
  import opened Wrappers

  datatype Color = Color(r: real, g: real, b: real)

  datatype Material = Material(
    ambient: Color, diffuse: Color, specular: Color,
    shininess: real, reflected: real, refracted: real)

  /** Material(): grey ambient 0.2, diffuse 0.6 and specular 0.4, shininess 10, no reflection or refraction. */
  const DefaultMaterial: Material := Material(
    Color(0.2, 0.2, 0.2), Color(0.6, 0.6, 0.6), Color(0.4, 0.4, 0.4), 10.0, 0.0, 0.0)

  /** The default tessellation patch count in each direction. */
  const DefaultPatches: real := 15.0

  datatype Node =
    | Superquadric(transforms: seq<Transform>, exp0: real, exp1: real,
                   patchU: real, patchV: real, mat: Material)
    | Assembly(transforms: seq<Transform>, children: seq<Node>)

  /**
   * Superquadric(e0, e1): the given exponents, 15 x 15 patches, the default
   * material and no transforms yet.
   */
  function NewSuperquadric(e0: real, e1: real): (n: Node)
    ensures n.Superquadric? && n.transforms == []
    ensures n.exp0 == e0 && n.exp1 == e1
    ensures n.patchU == DefaultPatches && n.patchV == DefaultPatches
    ensures n.mat == DefaultMaterial
  {
    Superquadric([], e0, e1, DefaultPatches, DefaultPatches, DefaultMaterial)
  }

  /**
   * Superquadric(): the body only builds and discards a temporary, so the
   * new object's exponents and patch counts are indeterminate; only the
   * members with their own initialisers (the empty transform list and the
   * default material) are known.
   */
  method DefaultSuperquadric() returns (n: Node)
    ensures n.Superquadric? && n.transforms == [] && n.mat == DefaultMaterial
  {
    var indeterminate := 0.0;
    n := Superquadric([], indeterminate, indeterminate, indeterminate, indeterminate, DefaultMaterial);
  }

  // ---------------------------------------------------------------- rays

  datatype Ray = Ray(origin: Vec3, direction: Vec3)

  /** Ray::At: the point reached after time t, origin + t * direction. */
  function At(ray: Ray, t: real): (p: Vec3)
    ensures Sub3(p, ray.origin) == Scale3(t, ray.direction)
  {
    Add3(ray.origin, Scale3(t, ray.direction))
  }

  /**
   * Ray::Transformed: the origin goes through the whole matrix as a point
   * (w = 1), the direction through the upper-left 3x3 block only.
   */
  function Transformed(ray: Ray, m: Mat4): (r: Ray)
    ensures Affine(m) ==> Point(r.origin) == Apply(m, Point(ray.origin))
    ensures r.direction == Block3(m, ray.direction)
  {
    Ray(Head(Apply(m, Point(ray.origin))), Block3(m, ray.direction))
  }

  /** A matrix whose last row is (0, 0, 0, 1): it maps points to points. */
  predicate Affine(m: Mat4)
  {
    m.r3 == Vec4(0.0, 0.0, 0.0, 1.0)
  }

  /** A translated ray starts d further along and keeps its direction. */
  lemma TranslatedRay(ray: Ray, d: Vec3)
    ensures Transformed(ray, Translation(d)) == Ray(Add3(ray.origin, d), ray.direction)
  {
  }

  /** The 3x3 block applied to d is the whole matrix applied to the direction (d, 0). */
  lemma BlockIsDirection(m: Mat4, d: Vec3)
    ensures Block3(m, d) == Head(Apply(m, Vec4(d.x, d.y, d.z, 0.0)))
    ensures Affine(m) ==> Apply(m, Vec4(d.x, d.y, d.z, 0.0)).w == 0.0
  {
  }

  /** An affine matrix sends a point to a point. */
  lemma AffineKeepsPoints(m: Mat4, p: Vec3)
    requires Affine(m)
    ensures Apply(m, Point(p)) == Point(Head(Apply(m, Point(p))))
  {
  }

  /**
   * Transforming by B and then by an affine A is transforming by A·B when B
   * is affine: this is why a list of transforms may be folded into one
   * matrix before a ray is moved.
   */
  lemma TransformedTwice(ray: Ray, a: Mat4, b: Mat4)
    requires Affine(b)
    ensures Transformed(Transformed(ray, b), a) == Transformed(ray, Mul(a, b))
  {
    var o, d := ray.origin, ray.direction;
    AffineKeepsPoints(b, o);
    ApplyMul(a, b, Point(o));
    var dv := Vec4(d.x, d.y, d.z, 0.0);
    BlockIsDirection(b, d);
    BlockIsDirection(a, Block3(b, d));
    BlockIsDirection(Mul(a, b), d);
    assert Apply(b, dv) == Vec4(Block3(b, d).x, Block3(b, d).y, Block3(b, d).z, 0.0);
    ApplyMul(a, b, dv);
  }

  /** a * (b + t * c) == a * b + t * (a * c), over plain variables. */
  lemma DistributeAlong(a: real, b: real, t: real, c: real)
    ensures a * (b + t * c) == a * b + t * (a * c)
  {
  }

  /** One row of a matrix, dotted with the point o + t·d. */
  lemma RowAlong(r: Vec4, o: Vec3, d: Vec3, t: real)
    ensures Dot4(r, Point(Add3(o, Scale3(t, d)))) == Dot4(r, Point(o)) + t * (r.x * d.x + r.y * d.y + r.z * d.z)
  {
    DistributeAlong(r.x, o.x, t, d.x);
    DistributeAlong(r.y, o.y, t, d.y);
    DistributeAlong(r.z, o.z, t, d.z);
  }

  /**
   * Under an affine matrix the point of the transformed ray at time t is the
   * transformed point of the original ray at t, so the distance t found in
   * one space is also the distance in the other.
   */
  lemma TransformedAt(ray: Ray, m: Mat4, t: real)
    requires Affine(m)
    ensures At(Transformed(ray, m), t) == Head(Apply(m, Point(At(ray, t))))
  {
    var o, d := ray.origin, ray.direction;
    RowAlong(m.r0, o, d, t);
    RowAlong(m.r1, o, d, t);
    RowAlong(m.r2, o, d, t);
  }

  /** A ray object whose two fields `Transform` and `Normalize` update in place. */
  class MutableRay {
    var origin: Vec3
    var direction: Vec3

    constructor (r: Ray)
      ensures Value() == r
    {
      origin, direction := r.origin, r.direction;
    }

    function Value(): Ray
      reads this
    {
      Ray(origin, direction)
    }

    /** Ray::Transform leaves the ray equal to what Transformed returns. */
    method Transform(m: Mat4)
      modifies this
      ensures Value() == Transformed(old(Value()), m)
    {
      var newOrigin := Apply(m, Point(origin));
      direction := Block3(m, direction);
      origin := Head(newOrigin);
    }

    /**
     * Ray::Normalize returns the direction's length from before the call and
     * leaves the direction divided by it; the origin is untouched.
     */
    method Normalize(m: Math) returns (norm: real)
      requires SqrtLaw(m) && Dot3(direction, direction) > 0.0
      modifies this
      ensures norm == Norm3(m, old(direction)) && norm > 0.0
      ensures Scale3(norm, direction) == old(direction)
      ensures origin == old(origin)
    {
      norm := Norm3(m, direction);
      direction := Normalized(m, direction);
    }
  }

  // ---------------------------------------------------------------- intersections

  /** Where a ray meets an object (the surface point and its normal), and which object. */
  datatype Intersection = Intersection(location: Ray, obj: Option<Node>)

  /** Intersection(): no object (the source leaves the location's vectors unset). */
  function EmptyIntersection(): (i: Intersection)
    ensures i.obj == None
  {
    Intersection(Ray(Zero3, Zero3), None)
  }

  /** Intersection(loc, sq) keeps both arguments. */
  function MakeIntersection(loc: Ray, sq: Node): (i: Intersection)
    ensures i.location == loc && i.obj == Some(sq)
  {
    Intersection(loc, Some(sq))
  }

  // ---------------------------------------------------------------- normals

  /**
   * The gradient GetNormal computes before normalising, with each component
   * forced to 0 where its coordinate is exactly 0.
   */
  function NormalGradient(m: Math, p: Vec3, e0: real, e1: real): (g: Vec3)
    requires e0 != 0.0 && e1 != 0.0
    ensures p.x == 0.0 ==> g.x == 0.0
    ensures p.y == 0.0 ==> g.y == 0.0
    ensures p.z == 0.0 ==> g.z == 0.0
  {
    var x, y, z := p.x, p.y, p.z;
    var xy := m.pow(m.pow(x * x, 1.0 / e0) + m.pow(y * y, 1.0 / e0), e0 / e1 - 1.0);
    Vec3(
      if x == 0.0 then 0.0 else 2.0 * x * m.pow(x * x, 1.0 / e0 - 1.0) * xy / e1,
      if y == 0.0 then 0.0 else 2.0 * y * m.pow(y * y, 1.0 / e0 - 1.0) * xy / e1,
      if z == 0.0 then 0.0 else 2.0 * z * m.pow(z * z, 1.0 / e1 - 1.0) / e1)
  }

  /**
   * Superquadric::GetNormal: the guarded gradient, normalised (a zero
   * gradient is left as it is). A zero coordinate gives a zero component,
   * and scaling the result back by the gradient's length gives the gradient.
   */
  function GetNormal(m: Math, sq: Node, p: Vec3): (n: Vec3)
    requires SqrtLaw(m) && sq.Superquadric? && sq.exp0 != 0.0 && sq.exp1 != 0.0
    ensures p.x == 0.0 ==> n.x == 0.0
    ensures p.y == 0.0 ==> n.y == 0.0
    ensures p.z == 0.0 ==> n.z == 0.0
    ensures var g := NormalGradient(m, p, sq.exp0, sq.exp1);
      if Dot3(g, g) > 0.0 then Scale3(Norm3(m, g), n) == g else n == g
  {
    var g := NormalGradient(m, p, sq.exp0, sq.exp1);
    var n := Normalized(m, g);
    ZeroComponentStaysZero(m, g, n);
    n
  }

  /** Normalising keeps a zero component zero. */
  lemma ZeroComponentStaysZero(m: Math, g: Vec3, n: Vec3)
    requires SqrtLaw(m) && n == Normalized(m, g)
    ensures g.x == 0.0 ==> n.x == 0.0
    ensures g.y == 0.0 ==> n.y == 0.0
    ensures g.z == 0.0 ==> n.z == 0.0
  {
    if Dot3(g, g) > 0.0 {
      var s := Norm3(m, g);
      assert Scale3(s, n) == g;
      assert s > 0.0;
      NonzeroFactor(s, n.x, g.x);
      NonzeroFactor(s, n.y, g.y);
      NonzeroFactor(s, n.z, g.z);
    }
  }

  /** A product with a positive factor is zero only when the other factor is. */
  lemma NonzeroFactor(s: real, a: real, b: real)
    requires s > 0.0 && s * a == b
    ensures b == 0.0 ==> a == 0.0
  {
  }
}
