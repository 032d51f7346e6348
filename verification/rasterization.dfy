/**
 * The shaded renderer's triangle rasterizer (hw2 rasterization.cpp): edge
 * functions, barycentric coordinates, colour interpolation and the
 * depth-buffered fill of one NDC triangle into a grid of yres rows of xres
 * cells.
 */
module Rasterization {
  import opened Floats
  import opened Wrappers
  import opened Mesh
  import opened Hw2Object

  datatype Color = Color(r: real, g: real, b: real)

  /** A triangle in NDC with the colour computed at each corner. */
  datatype Triangle = Triangle(a: Vertex, b: Vertex, c: Vertex, ca: Color, cb: Color, cc: Color)

  /** What one cell is offered: the interpolated depth and colour. */
  datatype Fragment = Fragment(depth: real, color: Color)

  predicate TriangleOk(t: Triangle)
  {
    t.a.Vertex? && t.b.Vertex? && t.c.Vertex?
  }

  /** in_triangle: the IEEE test 0 <= v && v <= 1, which infinities and NaN fail. */
  predicate InTriangle(v: Float)
  {
    v.Num? && 0.0 <= v.v <= 1.0
  }

  /** InTriangle is exactly the two IEEE comparisons of the source. */
  lemma InTriangleIsComparison(v: Float)
    ensures InTriangle(v) <==> AtMost(Num(0.0), v) && AtMost(v, Num(1.0))
  {
  }

  /**
   * compute_function: the line through (xi, yi) and (xj, yj) as an implicit
   * function; it vanishes at both points and changes sign with the order of
   * the two points.
   */
  function EdgeFunction(xi: real, yi: real, xj: real, yj: real, x: real, y: real): (f: real)
    ensures x == xi && y == yi ==> f == 0.0
    ensures x == xj && y == yj ==> f == 0.0
  {
    (yi - yj) * x + (xj - xi) * y + xi * yj - xj * yi
  }

  /** Swapping the two points of an edge negates its function. */
  lemma EdgeFunctionAntisymmetric(xi: real, yi: real, xj: real, yj: real, x: real, y: real)
    ensures EdgeFunction(xj, yj, xi, yi, x, y) == -EdgeFunction(xi, yi, xj, yj, x, y)
  {
  }

  /** Twice the signed area of the screen triangle: f_bc at a. */
  function Area(xa: real, ya: real, xb: real, yb: real, xc: real, yc: real): real
  {
    EdgeFunction(xb, yb, xc, yc, xa, ya)
  }

  /**
   * The three denominators of the barycentric coordinates are the same area
   * up to sign, and the three numerators at any point add up to it.
   */
  lemma EdgeFunctionsOfTriangle(xa: real, ya: real, xb: real, yb: real, xc: real, yc: real, x: real, y: real)
    ensures EdgeFunction(xa, ya, xc, yc, xb, yb) == -Area(xa, ya, xb, yb, xc, yc)
    ensures EdgeFunction(xa, ya, xb, yb, xc, yc) == Area(xa, ya, xb, yb, xc, yc)
    ensures EdgeFunction(xb, yb, xc, yc, x, y) - EdgeFunction(xa, ya, xc, yc, x, y) + EdgeFunction(xa, ya, xb, yb, x, y)
      == Area(xa, ya, xb, yb, xc, yc)
  {
  }

  /**
   * A double quotient n / d. A zero divisor gives an infinity or NaN whichever
   * sign the zero carries; the sign of a zero divisor is not tracked, because
   * every non-finite result fails InTriangle alike.
   */
  function Quotient(n: real, d: real): (r: Float)
    ensures r.Num? <==> d != 0.0
    ensures d != 0.0 ==> r.v * d == n
    ensures d == 0.0 ==> !InTriangle(r)
  {
    if d < 0.0 then DivNegZero(n, d) else DivPosZero(n, d)
  }

  /** compute_alpha: f_bc(p) / f_bc(a). */
  function Alpha(xa: real, ya: real, xb: real, yb: real, xc: real, yc: real, x: real, y: real): Float
  {
    Quotient(EdgeFunction(xb, yb, xc, yc, x, y), EdgeFunction(xb, yb, xc, yc, xa, ya))
  }

  /** compute_beta: f_ac(p) / f_ac(b). */
  function Beta(xa: real, ya: real, xb: real, yb: real, xc: real, yc: real, x: real, y: real): Float
  {
    Quotient(EdgeFunction(xa, ya, xc, yc, x, y), EdgeFunction(xa, ya, xc, yc, xb, yb))
  }

  /** compute_gamma: f_ab(p) / f_ab(c). */
  function Gamma(xa: real, ya: real, xb: real, yb: real, xc: real, yc: real, x: real, y: real): Float
  {
    Quotient(EdgeFunction(xa, ya, xb, yb, x, y), EdgeFunction(xa, ya, xb, yb, xc, yc))
  }

  /**
   * At the corners of a non-degenerate triangle the coordinates are the unit
   * triples: (1, 0, 0) at a, (0, 1, 0) at b and (0, 0, 1) at c.
   */
  lemma BarycentricAtCorners(xa: real, ya: real, xb: real, yb: real, xc: real, yc: real)
    requires Area(xa, ya, xb, yb, xc, yc) != 0.0
    ensures Alpha(xa, ya, xb, yb, xc, yc, xa, ya) == Num(1.0)
    ensures Beta(xa, ya, xb, yb, xc, yc, xa, ya) == Num(0.0)
    ensures Gamma(xa, ya, xb, yb, xc, yc, xa, ya) == Num(0.0)
    ensures Alpha(xa, ya, xb, yb, xc, yc, xb, yb) == Num(0.0)
    ensures Beta(xa, ya, xb, yb, xc, yc, xb, yb) == Num(1.0)
    ensures Gamma(xa, ya, xb, yb, xc, yc, xb, yb) == Num(0.0)
    ensures Alpha(xa, ya, xb, yb, xc, yc, xc, yc) == Num(0.0)
    ensures Beta(xa, ya, xb, yb, xc, yc, xc, yc) == Num(0.0)
    ensures Gamma(xa, ya, xb, yb, xc, yc, xc, yc) == Num(1.0)
  {
    EdgeFunctionsOfTriangle(xa, ya, xb, yb, xc, yc, xa, ya);
  }

  /**
   * For a non-degenerate triangle all three coordinates are finite at every
   * point and add up to 1.
   */
  lemma BarycentricSum(xa: real, ya: real, xb: real, yb: real, xc: real, yc: real, x: real, y: real)
    requires Area(xa, ya, xb, yb, xc, yc) != 0.0
    ensures Alpha(xa, ya, xb, yb, xc, yc, x, y).Num?
    ensures Beta(xa, ya, xb, yb, xc, yc, x, y).Num?
    ensures Gamma(xa, ya, xb, yb, xc, yc, x, y).Num?
    ensures Alpha(xa, ya, xb, yb, xc, yc, x, y).v + Beta(xa, ya, xb, yb, xc, yc, x, y).v
      + Gamma(xa, ya, xb, yb, xc, yc, x, y).v == 1.0
  {
    var d := Area(xa, ya, xb, yb, xc, yc);
    EdgeFunctionsOfTriangle(xa, ya, xb, yb, xc, yc, x, y);
    var fa, fb, fc := EdgeFunction(xb, yb, xc, yc, x, y), EdgeFunction(xa, ya, xc, yc, x, y), EdgeFunction(xa, ya, xb, yb, x, y);
    var al, be, ga := Alpha(xa, ya, xb, yb, xc, yc, x, y).v, Beta(xa, ya, xb, yb, xc, yc, x, y).v, Gamma(xa, ya, xb, yb, xc, yc, x, y).v;
    assert al * d == fa && be * (-d) == fb && ga * d == fc;
    SumOfQuotients(al, be, ga, d, fa, fb, fc);
  }

  lemma SumOfQuotients(al: real, be: real, ga: real, d: real, fa: real, fb: real, fc: real)
    requires d != 0.0 && al * d == fa && be * (-d) == fb && ga * d == fc && fa - fb + fc == d
    ensures al + be + ga == 1.0
  {
    var sum := al + be + ga;
    assert sum * d == d by {
      assert sum * d == al * d + be * d + ga * d;
      assert be * d == -(be * (-d));
    }
    assert (sum - 1.0) * d == 0.0;
  }

  /**
   * A degenerate triangle (its corners on one line) has no inside: every
   * coordinate is an infinity or NaN, so in_triangle fails at every point.
   */
  lemma DegenerateTriangleHasNoInside(xa: real, ya: real, xb: real, yb: real, xc: real, yc: real, x: real, y: real)
    requires Area(xa, ya, xb, yb, xc, yc) == 0.0
    ensures !InTriangle(Alpha(xa, ya, xb, yb, xc, yc, x, y))
    ensures !InTriangle(Beta(xa, ya, xb, yb, xc, yc, x, y))
    ensures !InTriangle(Gamma(xa, ya, xb, yb, xc, yc, x, y))
  {
    EdgeFunctionsOfTriangle(xa, ya, xb, yb, xc, yc, x, y);
  }

  /** add_colors: the channel-wise combination alpha·ca + beta·cb + gamma·cc. */
  function AddColors(alpha: real, beta: real, gamma: real, ca: Color, cb: Color, cc: Color): Color
  {
    Color(alpha * ca.r + beta * cb.r + gamma * cc.r,
          alpha * ca.g + beta * cb.g + gamma * cc.g,
          alpha * ca.b + beta * cb.b + gamma * cc.b)
  }

  /**
   * At a corner's unit weights the corner's colour comes back, and weights
   * that sum to 1 keep a colour shared by all three corners.
   */
  lemma AddColorsInterpolates(alpha: real, beta: real, gamma: real, ca: Color, cb: Color, cc: Color)
    ensures AddColors(1.0, 0.0, 0.0, ca, cb, cc) == ca
    ensures AddColors(0.0, 1.0, 0.0, ca, cb, cc) == cb
    ensures AddColors(0.0, 0.0, 1.0, ca, cb, cc) == cc
    ensures ca == cb == cc && alpha + beta + gamma == 1.0 ==> AddColors(alpha, beta, gamma, ca, cb, cc) == ca
  {
    if ca == cb == cc && alpha + beta + gamma == 1.0 {
      Distribute(alpha, beta, gamma, ca.r);
      Distribute(alpha, beta, gamma, ca.g);
      Distribute(alpha, beta, gamma, ca.b);
    }
  }

  lemma Distribute(alpha: real, beta: real, gamma: real, u: real)
    requires alpha + beta + gamma == 1.0
    ensures alpha * u + beta * u + gamma * u == u
  {
    assert alpha * u + beta * u + gamma * u == (alpha + beta + gamma) * u;
  }

  /** A convex combination of three values lies between their least and greatest. */
  lemma ConvexBetween(alpha: real, beta: real, gamma: real, u: real, v: real, w: real, lo: real, hi: real)
    requires 0.0 <= alpha && 0.0 <= beta && 0.0 <= gamma && alpha + beta + gamma == 1.0
    requires lo <= u <= hi && lo <= v <= hi && lo <= w <= hi
    ensures lo <= alpha * u + beta * v + gamma * w <= hi
  {
    var pu, pv, pw := alpha * u, beta * v, gamma * w;
    var lu, lv, lw := alpha * lo, beta * lo, gamma * lo;
    var hu, hv, hw := alpha * hi, beta * hi, gamma * hi;
    assert lu <= pu <= hu by { ScaleLeq(alpha, lo, u); ScaleLeq(alpha, u, hi); }
    assert lv <= pv <= hv by { ScaleLeq(beta, lo, v); ScaleLeq(beta, v, hi); }
    assert lw <= pw <= hw by { ScaleLeq(gamma, lo, w); ScaleLeq(gamma, w, hi); }
    assert lu + lv + lw == lo by { Distribute(alpha, beta, gamma, lo); }
    assert hu + hv + hw == hi by { Distribute(alpha, beta, gamma, hi); }
  }

  lemma ScaleLeq(k: real, a: real, b: real)
    requires 0.0 <= k && a <= b
    ensures k * a <= k * b
  {
    assert k * (b - a) >= 0.0;
  }

  /** z of cross(c - b, a - b). */
  function CrossZ(a: Vertex, b: Vertex, c: Vertex): real
    requires a.Vertex? && b.Vertex? && c.Vertex?
  {
    (c.x - b.x) * (a.y - b.y) - (c.y - b.y) * (a.x - b.x)
  }

  /** The triangle faces away from the camera when that z is negative. */
  predicate BackFacing(t: Triangle)
    requires TriangleOk(t)
  {
    CrossZ(t.a, t.b, t.c) < 0.0
  }

  /** The point alpha·a + beta·b + gamma·c. */
  function Blend(alpha: real, beta: real, gamma: real, a: Vertex, b: Vertex, c: Vertex): Vertex
    requires a.Vertex? && b.Vertex? && c.Vertex?
  {
    Vertex(alpha * a.x + beta * b.x + gamma * c.x,
           alpha * a.y + beta * b.y + gamma * c.y,
           alpha * a.z + beta * b.z + gamma * c.z,
           alpha * a.w + beta * b.w + gamma * c.w)
  }

  function Min3(a: int, b: int, c: int): int { Min(a, Min(b, c)) }
  function Max3(a: int, b: int, c: int): int { Max(a, Max(b, c)) }
  function Min(a: int, b: int): int { if a <= b then a else b }
  function Max(a: int, b: int): int { if a <= b then b else a }

  /** The bounding box of the screen triangle, in whole cells. */
  function XLow(t: Triangle, xres: int): int
    requires TriangleOk(t)
  {
    Min3(ScreenX(t.a.x, xres), ScreenX(t.b.x, xres), ScreenX(t.c.x, xres))
  }
  function XHigh(t: Triangle, xres: int): int
    requires TriangleOk(t)
  {
    Max3(ScreenX(t.a.x, xres), ScreenX(t.b.x, xres), ScreenX(t.c.x, xres))
  }
  function YLow(t: Triangle, yres: int): int
    requires TriangleOk(t)
  {
    Min3(ScreenY(t.a.y, yres), ScreenY(t.b.y, yres), ScreenY(t.c.y, yres))
  }
  function YHigh(t: Triangle, yres: int): int
    requires TriangleOk(t)
  {
    Max3(ScreenY(t.a.y, yres), ScreenY(t.b.y, yres), ScreenY(t.c.y, yres))
  }

  /** Twice the signed area of the triangle on the screen. */
  function ScreenArea(t: Triangle, xres: int, yres: int): real
    requires TriangleOk(t)
  {
    Area(ScreenX(t.a.x, xres) as real, ScreenY(t.a.y, yres) as real,
         ScreenX(t.b.x, xres) as real, ScreenY(t.b.y, yres) as real,
         ScreenX(t.c.x, xres) as real, ScreenY(t.c.y, yres) as real)
  }

  /**
   * The body of raster_colored_triangle's loop for cell (x, y) of the
   * bounding box, before the depth test: the fragment the triangle offers
   * there, if the cell's barycentric coordinates (in screen space) are all
   * in [0, 1] and the interpolated NDC point is contained.
   */
  function Shade(t: Triangle, xres: int, yres: int, x: int, y: int): Option<Fragment>
    requires TriangleOk(t)
  {
    if !(XLow(t, xres) <= x <= XHigh(t, xres) && YLow(t, yres) <= y <= YHigh(t, yres)) then None
    else
      var (alpha, beta, gamma) := Barycentric(t, xres, yres, x, y);
      if InTriangle(alpha) && InTriangle(beta) && InTriangle(gamma) then
        var p := Blend(alpha.v, beta.v, gamma.v, t.a, t.b, t.c);
        if IsContained(p) then Some(Fragment(p.z, AddColors(alpha.v, beta.v, gamma.v, t.ca, t.cb, t.cc)))
        else None
      else None
  }

  /** The barycentric coordinates of cell (x, y) in the screen triangle. */
  function Barycentric(t: Triangle, xres: int, yres: int, x: int, y: int): (Float, Float, Float)
    requires TriangleOk(t)
  {
    var xa, ya := ScreenX(t.a.x, xres) as real, ScreenY(t.a.y, yres) as real;
    var xb, yb := ScreenX(t.b.x, xres) as real, ScreenY(t.b.y, yres) as real;
    var xc, yc := ScreenX(t.c.x, xres) as real, ScreenY(t.c.y, yres) as real;
    (Alpha(xa, ya, xb, yb, xc, yc, x as real, y as real),
     Beta(xa, ya, xb, yb, xc, yc, x as real, y as real),
     Gamma(xa, ya, xb, yb, xc, yc, x as real, y as real))
  }

  /**
   * Whenever all three coordinates of a cell pass in_triangle they are
   * weights: each in [0, 1], and they add up to 1.
   */
  lemma InsideMeansWeights(t: Triangle, xres: int, yres: int, x: int, y: int)
    requires TriangleOk(t)
    ensures var (alpha, beta, gamma) := Barycentric(t, xres, yres, x, y);
      InTriangle(alpha) && InTriangle(beta) && InTriangle(gamma) ==> alpha.v + beta.v + gamma.v == 1.0
  {
    var xa, ya := ScreenX(t.a.x, xres) as real, ScreenY(t.a.y, yres) as real;
    var xb, yb := ScreenX(t.b.x, xres) as real, ScreenY(t.b.y, yres) as real;
    var xc, yc := ScreenX(t.c.x, xres) as real, ScreenY(t.c.y, yres) as real;
    if Area(xa, ya, xb, yb, xc, yc) == 0.0 {
      DegenerateTriangleHasNoInside(xa, ya, xb, yb, xc, yc, x as real, y as real);
    } else {
      BarycentricSum(xa, ya, xb, yb, xc, yc, x as real, y as real);
    }
  }

  /** What the triangle offers cell (x, y): nothing at all when it faces away. */
  function Offer(t: Triangle, xres: int, yres: int, x: int, y: int): Option<Fragment>
    requires TriangleOk(t)
  {
    if BackFacing(t) then None else Shade(t, xres, yres, x, y)
  }

  /** The depth test p.z <= buffer[y][x]. */
  predicate Wins(f: Option<Fragment>, depth: Float)
  {
    f.Some? && AtMost(Num(f.value.depth), depth)
  }

  /** The cell's depth after the test. */
  function NewDepth(f: Option<Fragment>, depth: Float): Float
  {
    if Wins(f, depth) then Num(f.value.depth) else depth
  }

  /** The cell's colour after the test. */
  function NewColor(f: Option<Fragment>, depth: Float, color: Color): Color
  {
    if Wins(f, depth) then f.value.color else color
  }

  /**
   * The depth buffer only ever comes closer: a cell keeps its depth or gets a
   * depth at most the old one, and a cell offered nothing keeps depth and
   * colour.
   */
  lemma DepthNeverIncreases(f: Option<Fragment>, depth: Float, color: Color)
    ensures NewDepth(f, depth) == depth || AtMost(NewDepth(f, depth), depth)
    ensures f.None? ==> NewDepth(f, depth) == depth && NewColor(f, depth, color) == color
    ensures depth == PosInf && f.Some? ==> NewDepth(f, depth) == Num(f.value.depth) && NewColor(f, depth, color) == f.value.color
  {
  }

  /**
   * Outside the triangle's bounding box nothing is offered, and a triangle
   * facing away offers nothing anywhere.
   */
  lemma OfferOnlyInBox(t: Triangle, xres: int, yres: int, x: int, y: int)
    requires TriangleOk(t)
    ensures Offer(t, xres, yres, x, y).Some? ==>
      !BackFacing(t) && XLow(t, xres) <= x <= XHigh(t, xres) && YLow(t, yres) <= y <= YHigh(t, yres)
  {
  }

  /** Every fragment's depth lies between the depths of the triangle's corners. */
  lemma ShadeDepthBetween(t: Triangle, xres: int, yres: int, x: int, y: int)
    requires TriangleOk(t) && Shade(t, xres, yres, x, y).Some?
    ensures Min3Real(t.a.z, t.b.z, t.c.z) <= Shade(t, xres, yres, x, y).value.depth <= Max3Real(t.a.z, t.b.z, t.c.z)
  {
    var al, be, ga := ShadeWeights(t, xres, yres, x, y);
    ConvexDepth(al, be, ga, t.a.z, t.b.z, t.c.z, Shade(t, xres, yres, x, y).value.depth);
  }

  /** When the corner colours have channels in [0, 1], so does every fragment's colour. */
  lemma ShadeColorInRange(t: Triangle, xres: int, yres: int, x: int, y: int)
    requires TriangleOk(t) && Shade(t, xres, yres, x, y).Some?
    requires UnitColor(t.ca) && UnitColor(t.cb) && UnitColor(t.cc)
    ensures UnitColor(Shade(t, xres, yres, x, y).value.color)
  {
    var al, be, ga := ShadeWeights(t, xres, yres, x, y);
    ConvexColor(al, be, ga, t.ca, t.cb, t.cc);
  }

  lemma ConvexColor(al: real, be: real, ga: real, ca: Color, cb: Color, cc: Color)
    requires 0.0 <= al && 0.0 <= be && 0.0 <= ga && al + be + ga == 1.0
    requires UnitColor(ca) && UnitColor(cb) && UnitColor(cc)
    ensures UnitColor(AddColors(al, be, ga, ca, cb, cc))
  {
    ConvexBetween(al, be, ga, ca.r, cb.r, cc.r, 0.0, 1.0);
    ConvexBetween(al, be, ga, ca.g, cb.g, cc.g, 0.0, 1.0);
    ConvexBetween(al, be, ga, ca.b, cb.b, cc.b, 0.0, 1.0);
  }

  /** The weights behind a fragment: three numbers in [0, 1] that add up to 1. */
  lemma ShadeWeights(t: Triangle, xres: int, yres: int, x: int, y: int) returns (al: real, be: real, ga: real)
    requires TriangleOk(t) && Shade(t, xres, yres, x, y).Some?
    ensures 0.0 <= al && 0.0 <= be && 0.0 <= ga && al + be + ga == 1.0
    ensures Shade(t, xres, yres, x, y).value.depth == al * t.a.z + be * t.b.z + ga * t.c.z
    ensures Shade(t, xres, yres, x, y).value.color == AddColors(al, be, ga, t.ca, t.cb, t.cc)
  {
    var w := Barycentric(t, xres, yres, x, y);
    InsideMeansWeights(t, xres, yres, x, y);
    al, be, ga := w.0.v, w.1.v, w.2.v;
    BlendDepth(al, be, ga, t.a, t.b, t.c);
  }

  lemma BlendDepth(al: real, be: real, ga: real, a: Vertex, b: Vertex, c: Vertex)
    requires a.Vertex? && b.Vertex? && c.Vertex?
    ensures Blend(al, be, ga, a, b, c).z == al * a.z + be * b.z + ga * c.z
  {
  }

  lemma ConvexDepth(al: real, be: real, ga: real, za: real, zb: real, zc: real, depth: real)
    requires 0.0 <= al && 0.0 <= be && 0.0 <= ga && al + be + ga == 1.0
    requires depth == al * za + be * zb + ga * zc
    ensures Min3Real(za, zb, zc) <= depth <= Max3Real(za, zb, zc)
  {
    ConvexBetween(al, be, ga, za, zb, zc, Min3Real(za, zb, zc), Max3Real(za, zb, zc));
  }

  function Min3Real(a: real, b: real, c: real): real
  {
    if a <= b && a <= c then a else if b <= c then b else c
  }

  function Max3Real(a: real, b: real, c: real): real
  {
    if a >= b && a >= c then a else if b >= c then b else c
  }

  predicate UnitColor(c: Color)
  {
    0.0 <= c.r <= 1.0 && 0.0 <= c.g <= 1.0 && 0.0 <= c.b <= 1.0
  }

  /**
   * A contained corner of a triangle that is not degenerate on the screen is
   * offered to its own screen cell with its own depth and colour.
   */
  lemma ShadeAtCorner(t: Triangle, xres: int, yres: int)
    requires TriangleOk(t) && IsContained(t.a) && ScreenArea(t, xres, yres) != 0.0
    ensures Shade(t, xres, yres, ScreenX(t.a.x, xres), ScreenY(t.a.y, yres)) == Some(Fragment(t.a.z, t.ca))
  {
    var xa, ya := ScreenX(t.a.x, xres) as real, ScreenY(t.a.y, yres) as real;
    var xb, yb := ScreenX(t.b.x, xres) as real, ScreenY(t.b.y, yres) as real;
    var xc, yc := ScreenX(t.c.x, xres) as real, ScreenY(t.c.y, yres) as real;
    BarycentricAtCorners(xa, ya, xb, yb, xc, yc);
    AddColorsInterpolates(1.0, 0.0, 0.0, t.ca, t.cb, t.cc);
    var p := Blend(1.0, 0.0, 0.0, t.a, t.b, t.c);
    assert p.x == t.a.x && p.y == t.a.y && p.z == t.a.z;
  }

  /**
   * The triangle with corners at NDC (1, 1), (-1, 1) and (1, -1) faces the
   * camera and offers a fragment to cell (xres, 0). raster_colored_triangle
   * visits its whole bounding box, so it reads and writes buffer[0][xres]
   * and pixels[0][xres], one past the end of a row of xres cells.
   */
  lemma CornerCellPastRowEnd(xres: int, yres: int, ca: Color, cb: Color, cc: Color)
    requires xres >= 1 && yres >= 1
    ensures var t := Triangle(Vertex(1.0, 1.0, 0.0, 1.0), Vertex(-1.0, 1.0, 0.0, 1.0), Vertex(1.0, -1.0, 0.0, 1.0), ca, cb, cc);
      !BackFacing(t) && XHigh(t, xres) == xres && Offer(t, xres, yres, xres, 0) == Some(Fragment(0.0, ca))
  {
    var t := Triangle(Vertex(1.0, 1.0, 0.0, 1.0), Vertex(-1.0, 1.0, 0.0, 1.0), Vertex(1.0, -1.0, 0.0, 1.0), ca, cb, cc);
    ScreenCorners(xres, yres);
    assert ScreenArea(t, xres, yres) == -(yres as real) * xres as real;
    PositiveProduct(xres as real, yres as real);
    ShadeAtCorner(t, xres, yres);
  }

  lemma PositiveProduct(a: real, b: real)
    requires a > 0.0 && b > 0.0
    ensures -b * a != 0.0
  {
  }

  /**
   * raster_colored_triangle, with its bounding box clipped to the grid:
   * every cell of the yres × xres grids ends up with the result of the depth
   * test against what the triangle offers it, and a triangle facing away
   * changes nothing.
   */
  method RasterColoredTriangle(t: Triangle, xres: int, yres: int, pixels: array2<Color>, buffer: array2<Float>)
    requires TriangleOk(t)
    requires pixels.Length0 == yres && pixels.Length1 == xres
    requires buffer.Length0 == yres && buffer.Length1 == xres
    modifies pixels, buffer
    ensures forall y, x :: 0 <= y < yres && 0 <= x < xres ==>
      buffer[y, x] == NewDepth(Offer(t, xres, yres, x, y), old(buffer[y, x])) &&
      pixels[y, x] == NewColor(Offer(t, xres, yres, x, y), old(buffer[y, x]), old(pixels[y, x]))
    ensures BackFacing(t) ==> unchanged(pixels, buffer)
  {
    var cross := CrossZ(t.a, t.b, t.c);
    if cross < 0.0 {
      return;
    }
    var sa := ToScreen(t.a, xres, yres);
    var sb := ToScreen(t.b, xres, yres);
    var sc := ToScreen(t.c, xres, yres);
    var xmin := Max(Min3(sa.x.Floor, sb.x.Floor, sc.x.Floor), 0);
    var xmax := Min(Max3(sa.x.Floor, sb.x.Floor, sc.x.Floor), xres - 1);
    var ymin := Max(Min3(sa.y.Floor, sb.y.Floor, sc.y.Floor), 0);
    var ymax := Min(Max3(sa.y.Floor, sb.y.Floor, sc.y.Floor), yres - 1);
    assert xmin == Max(XLow(t, xres), 0) && xmax == Min(XHigh(t, xres), xres - 1);
    assert ymin == Max(YLow(t, yres), 0) && ymax == Min(YHigh(t, yres), yres - 1);
    var x := xmin;
    while x <= xmax
      invariant xmin <= x <= Max(xmin, xmax + 1)
      invariant forall y, x' :: 0 <= y < yres && 0 <= x' < xres ==>
        buffer[y, x'] == (if x' < x then NewDepth(Offer(t, xres, yres, x', y), old(buffer[y, x'])) else old(buffer[y, x'])) &&
        pixels[y, x'] == (if x' < x then NewColor(Offer(t, xres, yres, x', y), old(buffer[y, x']), old(pixels[y, x'])) else old(pixels[y, x']))
    {
      RasterColumn(t, xres, yres, sa, sb, sc, x, ymin, ymax, pixels, buffer);
      x := x + 1;
    }
  }

  /**
   * The inner loop of raster_colored_triangle for column x, over the rows of
   * the bounding box that lie in the grid: each cell of the column gets the
   * depth test's result, every other cell is left alone.
   */
  method RasterColumn(t: Triangle, xres: int, yres: int, sa: Vertex, sb: Vertex, sc: Vertex,
                      x: int, ymin: int, ymax: int, pixels: array2<Color>, buffer: array2<Float>)
    requires TriangleOk(t) && !BackFacing(t)
    requires sa == ToScreen(t.a, xres, yres) && sb == ToScreen(t.b, xres, yres) && sc == ToScreen(t.c, xres, yres)
    requires pixels.Length0 == yres && pixels.Length1 == xres
    requires buffer.Length0 == yres && buffer.Length1 == xres
    requires 0 <= x < xres && XLow(t, xres) <= x <= XHigh(t, xres)
    requires ymin == Max(YLow(t, yres), 0) && ymax == Min(YHigh(t, yres), yres - 1)
    modifies pixels, buffer
    ensures forall y, x' :: 0 <= y < yres && 0 <= x' < xres ==>
      buffer[y, x'] == (if x' == x then NewDepth(Offer(t, xres, yres, x', y), old(buffer[y, x'])) else old(buffer[y, x'])) &&
      pixels[y, x'] == (if x' == x then NewColor(Offer(t, xres, yres, x', y), old(buffer[y, x']), old(pixels[y, x'])) else old(pixels[y, x']))
  {
    var y := ymin;
    while y <= ymax
      invariant ymin <= y <= Max(ymin, ymax + 1)
      invariant forall y', x' :: 0 <= y' < yres && 0 <= x' < xres ==>
        buffer[y', x'] == (if x' == x && y' < y then NewDepth(Offer(t, xres, yres, x', y'), old(buffer[y', x'])) else old(buffer[y', x'])) &&
        pixels[y', x'] == (if x' == x && y' < y then NewColor(Offer(t, xres, yres, x', y'), old(buffer[y', x']), old(pixels[y', x'])) else old(pixels[y', x']))
    {
      RasterCell(t, xres, yres, sa, sb, sc, x, y, pixels, buffer);
      y := y + 1;
    }
  }

  /** The body of the inner loop for cell (x, y): only that cell can change. */
  method RasterCell(t: Triangle, xres: int, yres: int, sa: Vertex, sb: Vertex, sc: Vertex,
                    x: int, y: int, pixels: array2<Color>, buffer: array2<Float>)
    requires TriangleOk(t) && !BackFacing(t)
    requires sa == ToScreen(t.a, xres, yres) && sb == ToScreen(t.b, xres, yres) && sc == ToScreen(t.c, xres, yres)
    requires pixels.Length0 == yres && pixels.Length1 == xres
    requires buffer.Length0 == yres && buffer.Length1 == xres
    requires 0 <= x < xres && 0 <= y < yres
    requires XLow(t, xres) <= x <= XHigh(t, xres) && YLow(t, yres) <= y <= YHigh(t, yres)
    modifies pixels, buffer
    ensures buffer[y, x] == NewDepth(Offer(t, xres, yres, x, y), old(buffer[y, x]))
    ensures pixels[y, x] == NewColor(Offer(t, xres, yres, x, y), old(buffer[y, x]), old(pixels[y, x]))
    ensures forall y', x' :: 0 <= y' < yres && 0 <= x' < xres && (y', x') != (y, x) ==>
      buffer[y', x'] == old(buffer[y', x']) && pixels[y', x'] == old(pixels[y', x'])
  {
    var alpha := Alpha(sa.x, sa.y, sb.x, sb.y, sc.x, sc.y, x as real, y as real);
    var beta := Beta(sa.x, sa.y, sb.x, sb.y, sc.x, sc.y, x as real, y as real);
    var gamma := Gamma(sa.x, sa.y, sb.x, sb.y, sc.x, sc.y, x as real, y as real);
    assert (alpha, beta, gamma) == Barycentric(t, xres, yres, x, y);
    if InTriangle(alpha) && InTriangle(beta) && InTriangle(gamma) {
      var p := Blend(alpha.v, beta.v, gamma.v, t.a, t.b, t.c);
      if IsContained(p) && AtMost(Num(p.z), buffer[y, x]) {
        buffer[y, x] := Num(p.z);
        pixels[y, x] := AddColors(alpha.v, beta.v, gamma.v, t.ca, t.cb, t.cc);
      }
    }
  }
}
