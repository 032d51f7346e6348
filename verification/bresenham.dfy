/**
 * Integer Bresenham line drawing (hw2 generalized_bresenham.cpp): four
 * octant walkers that insert pixels into a set, and the dispatcher that
 * picks a walker by the signs and sizes of dx and dy, swapping the
 * endpoints where needed.
 *
 * Each walker is specified by a reference definition of the line it draws:
 * after k steps along the major axis the minor coordinate has moved by
 * Offset(k, minor, major) = floor((2·k·minor + major) / (2·major)), the
 * nearest integer to k·minor/major with halves rounded up. The walkers'
 * error term is what keeps them on that line.
 */
module Bresenham {
  type Pixel = (int, int)

  /** How far the minor coordinate has moved after k steps along the major axis. */
  function Offset(k: int, minor: int, major: int): int
    requires major > 0
  {
    (2 * k * minor + major) / (2 * major)
  }

  /** The walkers' error term after k major steps and n minor steps. */
  function Err(k: int, n: int, minor: int, major: int): int
  {
    k * minor - n * major
  }

  // ---------------------------------------------------------------- reference lines

  /** The first `count` pixels of a shallow rising line: one per column from x0. */
  function SmallPosLine(x0: int, y0: int, dy: int, dx: int, count: int): set<Pixel>
    requires dx > 0
  {
    set k | 0 <= k < count :: (x0 + k, y0 + Offset(k, dy, dx))
  }

  /** The first `count` pixels of a shallow line falling by `fall` over dx: one per column from x0. */
  function SmallNegLine(x0: int, y0: int, fall: int, dx: int, count: int): set<Pixel>
    requires dx > 0
  {
    set k | 0 <= k < count :: (x0 + k, y0 - Offset(k, fall, dx))
  }

  /** The first `count` pixels of a steep line leaning right: one per row from y0. */
  function LargePosLine(x0: int, y0: int, dx: int, dy: int, count: int): set<Pixel>
    requires dy > 0
  {
    set k | 0 <= k < count :: (x0 + Offset(k, dx, dy), y0 + k)
  }

  /** The first `count` pixels of a steep line moving `back` columns left over dy: one per row from y0. */
  function LargeNegLine(x0: int, y0: int, back: int, dy: int, count: int): set<Pixel>
    requires dy > 0
  {
    set k | 0 <= k < count :: (x0 - Offset(k, back, dy), y0 + k)
  }

  /** While the error term is the line's, the next pixel drawn is the reference line's next pixel. */
  lemma SmallPosLineGrows(x0: int, y0: int, dy: int, dx: int, k: int, n: int)
    requires 0 <= k && dx > 0 && -dx <= 2 * Err(k, n, dy, dx) < dx
    ensures SmallPosLine(x0, y0, dy, dx, k + 1) == SmallPosLine(x0, y0, dy, dx, k) + {(x0 + k, y0 + n)}
  {
    OnLine(k, n, dy, dx);
    var next := SmallPosLine(x0, y0, dy, dx, k + 1);
    var grown := SmallPosLine(x0, y0, dy, dx, k) + {(x0 + k, y0 + n)};
    forall p | p in next
      ensures p in grown
    {
      var j :| 0 <= j < k + 1 && p == (x0 + j, y0 + Offset(j, dy, dx));
    }
    forall p | p in grown
      ensures p in next
    {
      if p in SmallPosLine(x0, y0, dy, dx, k) {
        var j :| 0 <= j < k && p == (x0 + j, y0 + Offset(j, dy, dx));
      } else {
        assert p == (x0 + k, y0 + Offset(k, dy, dx));
      }
    }
    assert next == grown;
  }

  lemma SmallNegLineGrows(x0: int, y0: int, fall: int, dx: int, k: int, n: int)
    requires 0 <= k && dx > 0 && -dx <= 2 * Err(k, n, fall, dx) < dx
    ensures SmallNegLine(x0, y0, fall, dx, k + 1) == SmallNegLine(x0, y0, fall, dx, k) + {(x0 + k, y0 - n)}
  {
    OnLine(k, n, fall, dx);
    var next := SmallNegLine(x0, y0, fall, dx, k + 1);
    var grown := SmallNegLine(x0, y0, fall, dx, k) + {(x0 + k, y0 - n)};
    forall p | p in next
      ensures p in grown
    {
      var j :| 0 <= j < k + 1 && p == (x0 + j, y0 - Offset(j, fall, dx));
    }
    forall p | p in grown
      ensures p in next
    {
      if p in SmallNegLine(x0, y0, fall, dx, k) {
        var j :| 0 <= j < k && p == (x0 + j, y0 - Offset(j, fall, dx));
      } else {
        assert p == (x0 + k, y0 - Offset(k, fall, dx));
      }
    }
    assert next == grown;
  }

  lemma LargePosLineGrows(x0: int, y0: int, dx: int, dy: int, k: int, n: int)
    requires 0 <= k && dy > 0 && -dy <= 2 * Err(k, n, dx, dy) < dy
    ensures LargePosLine(x0, y0, dx, dy, k + 1) == LargePosLine(x0, y0, dx, dy, k) + {(x0 + n, y0 + k)}
  {
    OnLine(k, n, dx, dy);
    var next := LargePosLine(x0, y0, dx, dy, k + 1);
    var grown := LargePosLine(x0, y0, dx, dy, k) + {(x0 + n, y0 + k)};
    forall p | p in next
      ensures p in grown
    {
      var j :| 0 <= j < k + 1 && p == (x0 + Offset(j, dx, dy), y0 + j);
    }
    forall p | p in grown
      ensures p in next
    {
      if p in LargePosLine(x0, y0, dx, dy, k) {
        var j :| 0 <= j < k && p == (x0 + Offset(j, dx, dy), y0 + j);
      } else {
        assert p == (x0 + Offset(k, dx, dy), y0 + k);
      }
    }
    assert next == grown;
  }

  lemma LargeNegLineGrows(x0: int, y0: int, back: int, dy: int, k: int, n: int)
    requires 0 <= k && dy > 0 && -dy <= 2 * Err(k, n, back, dy) < dy
    ensures LargeNegLine(x0, y0, back, dy, k + 1) == LargeNegLine(x0, y0, back, dy, k) + {(x0 - n, y0 + k)}
  {
    OnLine(k, n, back, dy);
    var next := LargeNegLine(x0, y0, back, dy, k + 1);
    var grown := LargeNegLine(x0, y0, back, dy, k) + {(x0 - n, y0 + k)};
    forall p | p in next
      ensures p in grown
    {
      var j :| 0 <= j < k + 1 && p == (x0 - Offset(j, back, dy), y0 + j);
    }
    forall p | p in grown
      ensures p in next
    {
      if p in LargeNegLine(x0, y0, back, dy, k) {
        var j :| 0 <= j < k && p == (x0 - Offset(j, back, dy), y0 + j);
      } else {
        assert p == (x0 - Offset(k, back, dy), y0 + k);
      }
    }
    assert next == grown;
  }

  // ---------------------------------------------------------------- arithmetic

  lemma DivUnique(a: int, b: int, q: int)
    requires b > 0 && q * b <= a < q * b + b
    ensures a / b == q
  {
    var r := a - q * b;
    assert a == q * b + r && 0 <= r < b;
    if a / b > q {
      MulLeq(q + 1, a / b, b);
      assert false;
    } else if a / b < q {
      MulLeq(a / b + 1, q, b);
      assert false;
    }
  }

  lemma MulLeq(a: int, b: int, c: int)
    requires a <= b && c >= 0
    ensures a * c <= b * c
  {
  }

  /** An error term in [-major, major) (doubled) means the walker sits on the reference line. */
  lemma OnLine(k: int, n: int, minor: int, major: int)
    requires major > 0 && -major <= 2 * Err(k, n, minor, major) < major
    ensures Offset(k, minor, major) == n
  {
    DivUnique(2 * k * minor + major, 2 * major, n);
  }

  /**
   * One step along the major axis adds `minor` to the error term e; when
   * twice the sum reaches `major` the line also steps along the minor axis,
   * which takes `major` away. Either way the error term stays the line's and
   * twice it stays in [-major, major).
   */
  lemma ErrStep(e: int, k: int, n: int, minor: int, major: int)
    requires 0 <= minor <= major && e == Err(k, n, minor, major) && -major <= 2 * e < major
    ensures 2 * (e + minor) < major ==> e + minor == Err(k + 1, n, minor, major) && -major <= 2 * (e + minor) < major
    ensures 2 * (e + minor) >= major ==>
              e + minor - major == Err(k + 1, n + 1, minor, major) && -major <= 2 * (e + minor - major) < major
  {
    assert Err(k + 1, n, minor, major) == Err(k, n, minor, major) + minor;
    assert Err(k + 1, n + 1, minor, major) == Err(k, n, minor, major) + minor - major;
  }

  /** Adding at most b to a moves a / b up by at most one. */
  lemma DivStep(a: int, d: int, b: int)
    requires b > 0 && 0 <= d <= b
    ensures a / b <= (a + d) / b <= a / b + 1
  {
    var q := a / b;
    assert a == q * b + a % b && 0 <= a % b < b;
    if a + d < q * b + b {
      DivUnique(a + d, b, q);
    } else {
      DivUnique(a + d, b, q + 1);
    }
  }

  /**
   * When 0 <= minor <= major, the minor coordinate starts at 0, never goes
   * back and moves by at most one per major step.
   */
  lemma OffsetStep(k: int, minor: int, major: int)
    requires 0 <= minor <= major && 0 < major
    ensures Offset(0, minor, major) == 0
    ensures Offset(k, minor, major) <= Offset(k + 1, minor, major) <= Offset(k, minor, major) + 1
  {
    OnLine(0, 0, minor, major);
    assert 2 * (k + 1) * minor + major == (2 * k * minor + major) + 2 * minor;
    DivStep(2 * k * minor + major, 2 * minor, 2 * major);
  }

  /** Within 0 <= k <= major the minor coordinate stays within 0 .. minor. */
  lemma OffsetBounded(k: int, minor: int, major: int)
    requires 0 <= minor <= major && 0 < major && 0 <= k <= major
    ensures 0 <= Offset(k, minor, major) <= minor
  {
    var a := 2 * k * minor + major;
    MulLeq(0, k, minor);
    MulLeq(k, major, minor);
    assert a == 2 * (k * minor) + major;
    assert (minor + 1) * (2 * major) == 2 * (major * minor) + 2 * major;
    DivBelow(a, 2 * major, minor + 1);
  }

  /** A non-negative a below c·b has a quotient by b in [0, c). */
  lemma DivBelow(a: int, b: int, c: int)
    requires b > 0 && 0 <= a < c * b
    ensures 0 <= a / b < c
  {
    var q, r := a / b, a % b;
    assert a == q * b + r && 0 <= r < b;
    if q >= c {
      MulLeq(c, q, b);
      assert false;
    }
    if q < 0 {
      MulLeq(q, -1, b);
      assert false;
    }
  }

  // ---------------------------------------------------------------- walkers

  /**
   * small_pos_bresenham: one pixel per column x0 <= x < x1, the end column
   * excluded. For 0 <= dy <= dx they are the reference line's pixels. The
   * walker only inserts, and only in those columns, whatever its inputs.
   */
  method SmallPos(x0: int, y0: int, x1: int, y1: int, pixels: set<Pixel>) returns (result: set<Pixel>)
    ensures pixels <= result
    ensures forall p :: p in result - pixels ==> x0 <= p.0 < x1
    ensures x1 <= x0 ==> result == pixels
    ensures x1 > x0 && 0 <= y1 - y0 <= x1 - x0 ==> result == pixels + SmallPosLine(x0, y0, y1 - y0, x1 - x0, x1 - x0)
  {
    var eps := 0;
    var y := y0;
    var dx := x1 - x0;
    var dy := y1 - y0;
    result := pixels;
    var x := x0;
    ghost var k, n := 0, 0;
    while x < x1
      invariant x == x0 || x0 < x <= x1
      invariant x == x0 + k && y == y0 + n
      invariant pixels <= result && (x == x0 ==> result == pixels)
      invariant forall p :: p in result - pixels ==> x0 <= p.0 < x
      invariant dx > 0 && 0 <= dy <= dx ==>
        eps == Err(k, n, dy, dx) && -dx <= 2 * eps < dx &&
        result == pixels + SmallPosLine(x0, y0, dy, dx, k)
    {
      if dx > 0 && 0 <= dy <= dx {
        SmallPosLineGrows(x0, y0, dy, dx, k, n);
        ErrStep(eps, k, n, dy, dx);
      }
      result := result + {(x, y)};
      if 2 * (eps + dy) < dx {
        eps := eps + dy;
      } else {
        eps := eps + dy - dx;
        y := y + 1;
        n := n + 1;
      }
      x := x + 1;
      k := k + 1;
    }
  }

  /**
   * small_neg_bresenham: one pixel per column x0 <= x < x1, y never rising.
   * For 0 <= -dy <= dx they are the reference falling line's pixels.
   */
  method SmallNeg(x0: int, y0: int, x1: int, y1: int, pixels: set<Pixel>) returns (result: set<Pixel>)
    ensures pixels <= result
    ensures forall p :: p in result - pixels ==> x0 <= p.0 < x1
    ensures x1 <= x0 ==> result == pixels
    ensures x1 > x0 && 0 <= y0 - y1 <= x1 - x0 ==> result == pixels + SmallNegLine(x0, y0, y0 - y1, x1 - x0, x1 - x0)
  {
    var eps := 0;
    var y := y0;
    var dx := x1 - x0;
    var dy := y1 - y0;
    result := pixels;
    var x := x0;
    ghost var k, n := 0, 0;
    while x < x1
      invariant x == x0 || x0 < x <= x1
      invariant x == x0 + k && y == y0 - n
      invariant pixels <= result && (x == x0 ==> result == pixels)
      invariant forall p :: p in result - pixels ==> x0 <= p.0 < x
      invariant dx > 0 && 0 <= -dy <= dx ==>
        -eps == Err(k, n, -dy, dx) && -dx <= -2 * eps < dx &&
        result == pixels + SmallNegLine(x0, y0, -dy, dx, k)
    {
      if dx > 0 && 0 <= -dy <= dx {
        SmallNegLineGrows(x0, y0, -dy, dx, k, n);
        ErrStep(-eps, k, n, -dy, dx);
      }
      result := result + {(x, y)};
      if 2 * (eps + dy) > -dx {
        eps := eps + dy;
      } else {
        eps := eps + dy + dx;
        y := y - 1;
        n := n + 1;
      }
      x := x + 1;
      k := k + 1;
    }
  }

  /**
   * large_pos_bresenham: one pixel per row y0 <= y <= y1, the end row
   * included. For 0 <= dx <= dy they are the reference steep line's pixels.
   */
  method LargePos(x0: int, y0: int, x1: int, y1: int, pixels: set<Pixel>) returns (result: set<Pixel>)
    ensures pixels <= result
    ensures forall p :: p in result - pixels ==> y0 <= p.1 <= y1
    ensures y1 < y0 ==> result == pixels
    ensures y1 > y0 && 0 <= x1 - x0 <= y1 - y0 ==> result == pixels + LargePosLine(x0, y0, x1 - x0, y1 - y0, y1 - y0 + 1)
  {
    var eps := 0;
    var x := x0;
    var dx := x1 - x0;
    var dy := y1 - y0;
    result := pixels;
    var y := y0;
    ghost var k, n := 0, 0;
    while y <= y1
      invariant y == y0 || y0 < y <= y1 + 1
      invariant y == y0 + k && x == x0 + n
      invariant pixels <= result && (y == y0 ==> result == pixels)
      invariant forall p :: p in result - pixels ==> y0 <= p.1 < y
      invariant dy > 0 && 0 <= dx <= dy ==>
        eps == Err(k, n, dx, dy) && -dy <= 2 * eps < dy &&
        result == pixels + LargePosLine(x0, y0, dx, dy, k)
    {
      if dy > 0 && 0 <= dx <= dy {
        LargePosLineGrows(x0, y0, dx, dy, k, n);
        ErrStep(eps, k, n, dx, dy);
      }
      result := result + {(x, y)};
      if 2 * (eps + dx) < dy {
        eps := eps + dx;
      } else {
        eps := eps + dx - dy;
        x := x + 1;
        n := n + 1;
      }
      y := y + 1;
      k := k + 1;
    }
  }

  /**
   * large_neg_bresenham: one pixel per row y0 <= y <= y1, x never moving
   * right. For 0 <= -dx <= dy they are the reference steep line's pixels.
   */
  method LargeNeg(x0: int, y0: int, x1: int, y1: int, pixels: set<Pixel>) returns (result: set<Pixel>)
    ensures pixels <= result
    ensures forall p :: p in result - pixels ==> y0 <= p.1 <= y1
    ensures y1 < y0 ==> result == pixels
    ensures y1 > y0 && 0 <= x0 - x1 <= y1 - y0 ==> result == pixels + LargeNegLine(x0, y0, x0 - x1, y1 - y0, y1 - y0 + 1)
  {
    var eps := 0;
    var x := x0;
    var dx := x1 - x0;
    var dy := y1 - y0;
    result := pixels;
    var y := y0;
    ghost var k, n := 0, 0;
    while y <= y1
      invariant y == y0 || y0 < y <= y1 + 1
      invariant y == y0 + k && x == x0 - n
      invariant pixels <= result && (y == y0 ==> result == pixels)
      invariant forall p :: p in result - pixels ==> y0 <= p.1 < y
      invariant dy > 0 && 0 <= -dx <= dy ==>
        -eps == Err(k, n, -dx, dy) && -dy <= -2 * eps < dy &&
        result == pixels + LargeNegLine(x0, y0, -dx, dy, k)
    {
      if dy > 0 && 0 <= -dx <= dy {
        LargeNegLineGrows(x0, y0, -dx, dy, k, n);
        ErrStep(-eps, k, n, -dx, dy);
      }
      result := result + {(x, y)};
      if 2 * (eps + dx) > -dy {
        eps := eps + dx;
      } else {
        eps := eps + dx + dy;
        x := x - 1;
        n := n + 1;
      }
      y := y + 1;
      k := k + 1;
    }
  }

  // ---------------------------------------------------------------- dispatcher

  function Abs(v: int): (r: int)
    ensures r >= 0 && (r == v || r == -v)
  {
    if v < 0 then -v else v
  }

  /** dx·dy > 0 exactly when dx and dy are both positive or both negative. */
  lemma ProductPositive(dx: int, dy: int)
    ensures dx * dy > 0 <==> (dx > 0 && dy > 0) || (dx < 0 && dy < 0)
  {
    if dx > 0 && dy < 0 {
      MulLeq(dx * 0, dx * -dy, 1);
      assert dx * dy == -(dx * -dy);
    } else if dx < 0 && dy > 0 {
      assert dx * dy == -(-dx * dy);
    }
  }

  /**
   * The pixels generalized_bresenham draws for a segment: the reference line
   * of the segment's octant, drawn from the endpoint with the smaller major
   * coordinate (the endpoints are swapped when the second one has it).
   * Segments with dx = dy = 0, with dx < 0 and dy = 0, or with dx = 0 and
   * dy < 0 draw nothing: no swap applies and the walker's loop is already
   * past its end.
   */
  function Segment(x0: int, y0: int, x1: int, y1: int): set<Pixel>
  {
    var dx, dy := x1 - x0, y1 - y0;
    if dx > 0 && dy > 0 && dx >= dy then SmallPosLine(x0, y0, dy, dx, dx)
    else if dx < 0 && dy < 0 && dx <= dy then SmallPosLine(x1, y1, -dy, -dx, -dx)
    else if dx > 0 && dy > 0 then LargePosLine(x0, y0, dx, dy, dy + 1)
    else if dx < 0 && dy < 0 then LargePosLine(x1, y1, -dx, -dy, -dy + 1)
    else if dx > 0 && dx >= -dy then SmallNegLine(x0, y0, -dy, dx, dx)
    else if dx < 0 && dy > 0 && -dx >= dy then SmallNegLine(x1, y1, dy, -dx, -dx)
    else if dy > 0 then LargeNegLine(x0, y0, -dx, dy, dy + 1)
    else if dy < 0 && dx > 0 then LargeNegLine(x1, y1, dx, -dy, -dy + 1)
    else {}
  }

  /** generalized_bresenham adds exactly the segment's pixels. */
  method GeneralizedBresenham(x0: int, y0: int, x1: int, y1: int, pixels: set<Pixel>) returns (result: set<Pixel>)
    ensures result == pixels + Segment(x0, y0, x1, y1)
  {
    var dx := x1 - x0;
    var dy := y1 - y0;
    ProductPositive(dx, dy);
    if dx * dy > 0 {
      result := PositiveSlope(x0, y0, x1, y1, pixels);
    } else {
      result := NegativeSlope(x0, y0, x1, y1, pixels);
    }
  }

  /** The dx·dy > 0 branch: both deltas made positive, then small or large by dx >= dy. */
  method PositiveSlope(x0: int, y0: int, x1: int, y1: int, pixels: set<Pixel>) returns (result: set<Pixel>)
    requires (x1 - x0 > 0 && y1 - y0 > 0) || (x1 - x0 < 0 && y1 - y0 < 0)
    ensures result == pixels + Segment(x0, y0, x1, y1)
  {
    var dx := x1 - x0;
    var dy := y1 - y0;
    var sx, sy, ex, ey := x0, y0, x1, y1;
    if dx < 0 && dy < 0 {
      sx, sy, ex, ey := ex, ey, sx, sy;
      dx := -dx;
      dy := -dy;
    }
    if dx >= dy {
      result := SmallPos(sx, sy, ex, ey, pixels);
    } else {
      result := LargePos(sx, sy, ex, ey, pixels);
    }
  }

  /** The dx·dy <= 0 branch: shallow or steep by |dx| >= |dy|. */
  method NegativeSlope(x0: int, y0: int, x1: int, y1: int, pixels: set<Pixel>) returns (result: set<Pixel>)
    requires (x1 - x0 >= 0 || y1 - y0 >= 0) && (x1 - x0 <= 0 || y1 - y0 <= 0)
    ensures result == pixels + Segment(x0, y0, x1, y1)
  {
    if Abs(x1 - x0) >= Abs(y1 - y0) {
      result := ShallowFalling(x0, y0, x1, y1, pixels);
    } else {
      result := SteepFalling(x0, y0, x1, y1, pixels);
    }
  }

  /** |dx| >= |dy| with dx·dy <= 0: swapped when dy > 0 and dx < 0, then the small negative walker. */
  method ShallowFalling(x0: int, y0: int, x1: int, y1: int, pixels: set<Pixel>) returns (result: set<Pixel>)
    requires (x1 - x0 >= 0 || y1 - y0 >= 0) && (x1 - x0 <= 0 || y1 - y0 <= 0)
    requires Abs(x1 - x0) >= Abs(y1 - y0)
    ensures result == pixels + Segment(x0, y0, x1, y1)
  {
    if y1 - y0 > 0 && x1 - x0 < 0 {
      result := SmallNeg(x1, y1, x0, y0, pixels);
    } else {
      result := SmallNeg(x0, y0, x1, y1, pixels);
    }
  }

  /** |dx| < |dy| with dx·dy <= 0: swapped when dy < 0 and dx > 0, then the large negative walker. */
  method SteepFalling(x0: int, y0: int, x1: int, y1: int, pixels: set<Pixel>) returns (result: set<Pixel>)
    requires (x1 - x0 >= 0 || y1 - y0 >= 0) && (x1 - x0 <= 0 || y1 - y0 <= 0)
    requires Abs(x1 - x0) < Abs(y1 - y0)
    ensures result == pixels + Segment(x0, y0, x1, y1)
  {
    if y1 - y0 < 0 && x1 - x0 > 0 {
      result := LargeNeg(x1, y1, x0, y0, pixels);
    } else {
      result := LargeNeg(x0, y0, x1, y1, pixels);
    }
  }

  // ---------------------------------------------------------------- line shapes

  /**
   * A shallow rising line starts at (x0, y0) and holds exactly one pixel in
   * each column x0 .. x0 + dx - 1, at a height within y0 .. y0 + dy;
   * OffsetStep says that from one column to the next it stays or rises by one.
   */
  lemma SmallPosLineShape(x0: int, y0: int, dy: int, dx: int, p: Pixel)
    requires 0 <= dy <= dx && 0 < dx
    ensures (x0, y0) in SmallPosLine(x0, y0, dy, dx, dx)
    ensures p in SmallPosLine(x0, y0, dy, dx, dx) <==> x0 <= p.0 < x0 + dx && p.1 == y0 + Offset(p.0 - x0, dy, dx)
    ensures p in SmallPosLine(x0, y0, dy, dx, dx) ==> y0 <= p.1 <= y0 + dy
  {
    OffsetStep(0, dy, dx);
    assert (x0 + 0, y0 + Offset(0, dy, dx)) in SmallPosLine(x0, y0, dy, dx, dx);
    if x0 <= p.0 < x0 + dx {
      OffsetBounded(p.0 - x0, dy, dx);
      assert (x0 + (p.0 - x0), y0 + Offset(p.0 - x0, dy, dx)) in SmallPosLine(x0, y0, dy, dx, dx);
    }
  }

  /**
   * A shallow falling line starts at (x0, y0) and holds exactly one pixel in
   * each column x0 .. x0 + dx - 1, at a height within y0 - fall .. y0.
   */
  lemma SmallNegLineShape(x0: int, y0: int, fall: int, dx: int, p: Pixel)
    requires 0 <= fall <= dx && 0 < dx
    ensures (x0, y0) in SmallNegLine(x0, y0, fall, dx, dx)
    ensures p in SmallNegLine(x0, y0, fall, dx, dx) <==> x0 <= p.0 < x0 + dx && p.1 == y0 - Offset(p.0 - x0, fall, dx)
    ensures p in SmallNegLine(x0, y0, fall, dx, dx) ==> y0 - fall <= p.1 <= y0
  {
    OffsetStep(0, fall, dx);
    assert (x0 + 0, y0 - Offset(0, fall, dx)) in SmallNegLine(x0, y0, fall, dx, dx);
    if x0 <= p.0 < x0 + dx {
      OffsetBounded(p.0 - x0, fall, dx);
      assert (x0 + (p.0 - x0), y0 - Offset(p.0 - x0, fall, dx)) in SmallNegLine(x0, y0, fall, dx, dx);
    }
  }

  /**
   * A steep line leaning right starts at (x0, y0) and holds exactly one pixel
   * in each row y0 .. y0 + dy (the end row included), within x0 .. x0 + dx.
   */
  lemma LargePosLineShape(x0: int, y0: int, dx: int, dy: int, p: Pixel)
    requires 0 <= dx <= dy && 0 < dy
    ensures (x0, y0) in LargePosLine(x0, y0, dx, dy, dy + 1)
    ensures p in LargePosLine(x0, y0, dx, dy, dy + 1) <==> y0 <= p.1 <= y0 + dy && p.0 == x0 + Offset(p.1 - y0, dx, dy)
    ensures p in LargePosLine(x0, y0, dx, dy, dy + 1) ==> x0 <= p.0 <= x0 + dx
  {
    OffsetStep(0, dx, dy);
    assert (x0 + Offset(0, dx, dy), y0 + 0) in LargePosLine(x0, y0, dx, dy, dy + 1);
    if y0 <= p.1 <= y0 + dy {
      OffsetBounded(p.1 - y0, dx, dy);
      assert (x0 + Offset(p.1 - y0, dx, dy), y0 + (p.1 - y0)) in LargePosLine(x0, y0, dx, dy, dy + 1);
    }
  }

  /**
   * A steep line leaning left starts at (x0, y0) and holds exactly one pixel
   * in each row y0 .. y0 + dy (the end row included), within x0 - back .. x0.
   */
  lemma LargeNegLineShape(x0: int, y0: int, back: int, dy: int, p: Pixel)
    requires 0 <= back <= dy && 0 < dy
    ensures (x0, y0) in LargeNegLine(x0, y0, back, dy, dy + 1)
    ensures p in LargeNegLine(x0, y0, back, dy, dy + 1) <==> y0 <= p.1 <= y0 + dy && p.0 == x0 - Offset(p.1 - y0, back, dy)
    ensures p in LargeNegLine(x0, y0, back, dy, dy + 1) ==> x0 - back <= p.0 <= x0
  {
    OffsetStep(0, back, dy);
    assert (x0 - Offset(0, back, dy), y0 + 0) in LargeNegLine(x0, y0, back, dy, dy + 1);
    if y0 <= p.1 <= y0 + dy {
      OffsetBounded(p.1 - y0, back, dy);
      assert (x0 - Offset(p.1 - y0, back, dy), y0 + (p.1 - y0)) in LargeNegLine(x0, y0, back, dy, dy + 1);
    }
  }

  // ---------------------------------------------------------------- segments

  function Min(a: int, b: int): int { if a <= b then a else b }
  function Max(a: int, b: int): int { if a <= b then b else a }

  /** Every pixel of a segment lies in the bounding box of its two endpoints. */
  lemma SegmentInBox(x0: int, y0: int, x1: int, y1: int, p: Pixel)
    requires p in Segment(x0, y0, x1, y1)
    ensures Min(x0, x1) <= p.0 <= Max(x0, x1) && Min(y0, y1) <= p.1 <= Max(y0, y1)
  {
    var dx, dy := x1 - x0, y1 - y0;
    if dx > 0 && dy > 0 && dx >= dy { SmallPosLineShape(x0, y0, dy, dx, p); }
    else if dx < 0 && dy < 0 && dx <= dy { SmallPosLineShape(x1, y1, -dy, -dx, p); }
    else if dx > 0 && dy > 0 { LargePosLineShape(x0, y0, dx, dy, p); }
    else if dx < 0 && dy < 0 { LargePosLineShape(x1, y1, -dx, -dy, p); }
    else if dx > 0 && dx >= -dy { SmallNegLineShape(x0, y0, -dy, dx, p); }
    else if dx < 0 && dy > 0 && -dx >= dy { SmallNegLineShape(x1, y1, dy, -dx, p); }
    else if dy > 0 { LargeNegLineShape(x0, y0, -dx, dy, p); }
    else if dy < 0 && dx > 0 { LargeNegLineShape(x1, y1, dx, -dy, p); }
  }

  /**
   * Only three kinds of segment draw nothing: a single point, a horizontal
   * one running left and a vertical one running down. Every other segment
   * contains the endpoint it is drawn from.
   */
  lemma SegmentStart(x0: int, y0: int, x1: int, y1: int)
    ensures Segment(x0, y0, x1, y1) == {} <==>
      (x1 - x0 == 0 && y1 - y0 <= 0) || (x1 - x0 < 0 && y1 - y0 == 0)
    ensures Segment(x0, y0, x1, y1) != {} ==>
      (x0, y0) in Segment(x0, y0, x1, y1) || (x1, y1) in Segment(x0, y0, x1, y1)
  {
    var dx, dy := x1 - x0, y1 - y0;
    if dx > 0 && dy > 0 && dx >= dy { SmallPosLineShape(x0, y0, dy, dx, (x0, y0)); }
    else if dx < 0 && dy < 0 && dx <= dy { SmallPosLineShape(x1, y1, -dy, -dx, (x1, y1)); }
    else if dx > 0 && dy > 0 { LargePosLineShape(x0, y0, dx, dy, (x0, y0)); }
    else if dx < 0 && dy < 0 { LargePosLineShape(x1, y1, -dx, -dy, (x1, y1)); }
    else if dx > 0 && dx >= -dy { SmallNegLineShape(x0, y0, -dy, dx, (x0, y0)); }
    else if dx < 0 && dy > 0 && -dx >= dy { SmallNegLineShape(x1, y1, dy, -dx, (x1, y1)); }
    else if dy > 0 { LargeNegLineShape(x0, y0, -dx, dy, (x0, y0)); }
    else if dy < 0 && dx > 0 { LargeNegLineShape(x1, y1, dx, -dy, (x1, y1)); }
  }

  /**
   * The shallow walkers stop before the last column, so a segment with
   * |dx| >= |dy| never contains its right-hand endpoint; a steep one
   * contains both of its endpoints, unless it is vertical and drawn
   * downwards (then it is empty, see SegmentStart).
   */
  lemma SegmentEnds(x0: int, y0: int, x1: int, y1: int)
    ensures x1 - x0 > 0 && Abs(x1 - x0) >= Abs(y1 - y0) ==> (x1, y1) !in Segment(x0, y0, x1, y1)
    ensures x1 - x0 < 0 && Abs(x1 - x0) >= Abs(y1 - y0) ==> (x0, y0) !in Segment(x0, y0, x1, y1)
    ensures Abs(x1 - x0) < Abs(y1 - y0) && !(x1 - x0 == 0 && y1 - y0 < 0) ==> (x0, y0) in Segment(x0, y0, x1, y1) && (x1, y1) in Segment(x0, y0, x1, y1)
  {
    var dx, dy := x1 - x0, y1 - y0;
    if dx > 0 && dy > 0 && dx >= dy { SmallPosLineShape(x0, y0, dy, dx, (x1, y1)); }
    else if dx < 0 && dy < 0 && dx <= dy { SmallPosLineShape(x1, y1, -dy, -dx, (x0, y0)); }
    else if dx > 0 && dy > 0 {
      LargePosLineShape(x0, y0, dx, dy, (x1, y1));
      OffsetAtEnd(dx, dy);
    } else if dx < 0 && dy < 0 {
      LargePosLineShape(x1, y1, -dx, -dy, (x0, y0));
      OffsetAtEnd(-dx, -dy);
    } else if dx > 0 && dx >= -dy { SmallNegLineShape(x0, y0, -dy, dx, (x1, y1)); }
    else if dx < 0 && dy > 0 && -dx >= dy { SmallNegLineShape(x1, y1, dy, -dx, (x0, y0)); }
    else if dy > 0 {
      LargeNegLineShape(x0, y0, -dx, dy, (x1, y1));
      OffsetAtEnd(-dx, dy);
    } else if dy < 0 && dx > 0 {
      LargeNegLineShape(x1, y1, dx, -dy, (x0, y0));
      OffsetAtEnd(dx, -dy);
    }
  }

  /** After `major` steps the rounded offset has covered the whole minor extent. */
  lemma OffsetAtEnd(minor: int, major: int)
    requires 0 <= minor && 0 < major
    ensures Offset(major, minor, major) == minor
  {
    assert 2 * major * minor + major == minor * (2 * major) + major;
    DivUnique(2 * major * minor + major, 2 * major, minor);
  }

  // ---------------------------------------------------------------- direction

  /**
   * As written, a wireframe edge that is vertical and drawn downwards, or
   * horizontal and drawn leftwards, disappears, while the same edge drawn
   * the other way round is drawn: the swap guards test dy > 0 and dy < 0
   * strictly, so neither swap fires and the walker starts past its end.
   */
  lemma SegmentDependsOnDirection()
    ensures (0, 0) in Segment(0, 0, 0, 1) && Segment(0, 1, 0, 0) == {}
    ensures (0, 0) in Segment(0, 0, 1, 0) && Segment(1, 0, 0, 0) == {}
  {
    LargeNegLineShape(0, 0, 0, 1, (0, 0));
    SmallNegLineShape(0, 0, 0, 1, (0, 0));
  }

  /**
   * The segment with the swap guards widened to dy >= 0 (shallow) and
   * dx >= 0 (steep): an axis-parallel segment running left or down is drawn
   * from its other end.
   */
  function FixedSegment(x0: int, y0: int, x1: int, y1: int): set<Pixel>
  {
    var dx, dy := x1 - x0, y1 - y0;
    if (dx == 0 && dy < 0) || (dx < 0 && dy == 0) then Segment(x1, y1, x0, y0)
    else Segment(x0, y0, x1, y1)
  }

  /**
   * With the widened guards, swapping the endpoints does not change the
   * pixels drawn, and only a single-point segment draws nothing.
   */
  lemma FixedSegmentSymmetric(x0: int, y0: int, x1: int, y1: int)
    ensures FixedSegment(x0, y0, x1, y1) == FixedSegment(x1, y1, x0, y0)
    ensures FixedSegment(x0, y0, x1, y1) == {} <==> x0 == x1 && y0 == y1
  {
    SegmentStart(x0, y0, x1, y1);
    SegmentStart(x1, y1, x0, y0);
  }

  /** generalized_bresenham with the widened swap guards. */
  method FixedBresenham(x0: int, y0: int, x1: int, y1: int, pixels: set<Pixel>) returns (result: set<Pixel>)
    ensures result == pixels + FixedSegment(x0, y0, x1, y1)
  {
    var dx := x1 - x0;
    var dy := y1 - y0;
    ProductPositive(dx, dy);
    if dx * dy > 0 {
      result := PositiveSlope(x0, y0, x1, y1, pixels);
    } else if Abs(dx) >= Abs(dy) {
      if dy >= 0 && dx < 0 {
        result := SmallNeg(x1, y1, x0, y0, pixels);
      } else {
        result := SmallNeg(x0, y0, x1, y1, pixels);
      }
    } else {
      if dy < 0 && dx >= 0 {
        result := LargeNeg(x1, y1, x0, y0, pixels);
      } else {
        result := LargeNeg(x0, y0, x1, y1, pixels);
      }
    }
  }
}
