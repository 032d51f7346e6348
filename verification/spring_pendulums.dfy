/**
 * What the two hw6 Part1 spring pendulum demos share: the point, colour and
 * bob records, the simulation constants, the trail of the last
 * max_num_points bob positions and the colour each trail point gets from
 * the "normalised" Lagrangian |L / L0| clamped at 1.
 */
module SpringPendulums {
  import opened Floats

  /** A traced position. */
  datatype Point = Point(x: real, y: real)

  /** A traced point's colour; its channels are floats, so they can be NaN. */
  datatype Color = Color(r: Float, g: Float, b: Float)

  /** Spring_Pendulum: mass, position, momentum, spring constant and rest length. */
  datatype Bob = Bob(m: real, x: real, y: real, px: real, py: real, k: real, rl: real)

  /** The time step. */
  const Dt: real := 0.01

  /** The acceleration of gravity (downwards). */
  const G: real := -9.8

  /** The longest a trail gets. */
  const MaxNumPoints: nat := 1000

  /** main: mass 1, at rest at (x, y), spring constant 20 and rest length 1. */
  function InitialBob(x: real, y: real): (b: Bob)
    ensures b.m == 1.0 && b.x == x && b.y == y && b.px == 0.0 && b.py == 0.0
    ensures b.k == 20.0 && b.rl == 1.0
  {
    Bob(1.0, x, y, 0.0, 0.0, 20.0, 1.0)
  }

  /** Where the bob is, as a trail point. */
  function At(b: Bob): Point
  {
    Point(b.x, b.y)
  }

  /** ½·m·|p/m|²: the bob's kinetic energy. */
  function KineticOf(b: Bob): (e: real)
    requires b.m > 0.0
    ensures e >= 0.0
  {
    var vx, vy := b.px / b.m, b.py / b.m;
    HalfMassSquares(b.m, vx * vx, vy * vy);
    1.0 / 2.0 * b.m * (vx * vx + vy * vy)
  }

  /**
   * The end of an update: the bob moves by dt times its new velocity and
   * its momentum becomes mass times that velocity.
   */
  function Moved(b: Bob, vx: real, vy: real): (r: Bob)
    ensures r.m == b.m && r.k == b.k && r.rl == b.rl
  {
    Bob(b.m, b.x + Dt * vx, b.y + Dt * vy, b.m * vx, b.m * vy, b.k, b.rl)
  }

  /** After a move the velocity is the momentum over the mass, and the move is dt times that. */
  lemma MovedFollowsMomentum(b: Bob, vx: real, vy: real)
    requires b.m != 0.0
    ensures Moved(b, vx, vy).px / b.m == vx && Moved(b, vx, vy).py / b.m == vy
    ensures Moved(b, vx, vy).x == b.x + Dt * (Moved(b, vx, vy).px / b.m)
    ensures Moved(b, vx, vy).y == b.y + Dt * (Moved(b, vx, vy).py / b.m)
  {
    TimesThenOver(b.m, vx);
    TimesThenOver(b.m, vy);
  }

  lemma TimesThenOver(m: real, v: real)
    requires m != 0.0
    ensures (m * v) / m == v
  {
  }

  lemma HalfMassSquares(m: real, a: real, c: real)
    requires m > 0.0 && a >= 0.0 && c >= 0.0
    ensures 1.0 / 2.0 * m * (a + c) >= 0.0
  {
  }

  // ------------------------------------------------------------------ trails

  /**
   * update_path on one trail: when the trail already holds max_num_points
   * entries the oldest is erased, then the new one is appended.
   */
  function Trailed<T>(s: seq<T>, p: T): (r: seq<T>)
    ensures |r| == if |s| == MaxNumPoints then |s| else |s| + 1
    ensures r[|r| - 1] == p
  {
    (if |s| == MaxNumPoints then s[1..] else s) + [p]
  }

  /** The last max_num_points entries of everything ever traced, oldest first. */
  function Recent<T>(h: seq<T>): (r: seq<T>)
    ensures |r| <= MaxNumPoints
    ensures |r| == if |h| <= MaxNumPoints then |h| else MaxNumPoints
  {
    if |h| <= MaxNumPoints then h else h[|h| - MaxNumPoints..]
  }

  /**
   * A trail that holds the recent history stays exactly the recent history
   * when a point is traced: it never exceeds max_num_points, and it drops
   * the oldest points first.
   */
  lemma TrailedIsRecent<T>(h: seq<T>, p: T)
    ensures Trailed(Recent(h), p) == Recent(h + [p])
  {
    var h' := h + [p];
    if |h| < MaxNumPoints {
      assert Recent(h) == h;
    } else if |h| == MaxNumPoints {
      assert Recent(h) == h;
      assert h'[|h'| - MaxNumPoints..] == h[1..] + [p];
    } else {
      var r := h[|h| - MaxNumPoints..];
      assert Recent(h) == r;
      assert r[1..] == h[|h| - MaxNumPoints + 1..];
      assert h'[|h'| - MaxNumPoints..] == h[|h| - MaxNumPoints + 1..] + [p];
    }
  }

  /**
   * update_path on one trail, given whether the trail it checks is full:
   * erase the oldest entry if so, then append. On a trail that is the
   * recent history this is the bounded push, and gives the new recent
   * history.
   */
  method PushBounded<T>(ghost h: seq<T>, s: seq<T>, full: bool, p: T) returns (r: seq<T>)
    requires s == Recent(h) && (full <==> |s| == MaxNumPoints)
    ensures r == Trailed(s, p) && r == Recent(h + [p])
  {
    r := s;
    if full {
      r := r[1..];
    }
    r := r + [p];
    TrailedIsRecent(h, p);
  }

  /** Trails that are the recent histories of equally long histories are equally long. */
  lemma RecentSameLength<S, T>(h1: seq<S>, h2: seq<T>)
    requires |h1| == |h2|
    ensures |Recent(h1)| == |Recent(h2)|
  {
  }

  // --------------------------------------------------- the normalised Lagrangian

  /**
   * abs(l / l0) on floats: a non-zero over a zero is an infinity of one
   * sign or the other, which abs makes +inf; 0 / 0 is NaN, which abs keeps.
   */
  function AbsRatio(l: real, l0: real): (a: Float)
    ensures l0 != 0.0 ==> a.Num? && a.v >= 0.0 && (a.v == l / l0 || a.v == -(l / l0))
    ensures l0 == 0.0 && l != 0.0 ==> a == PosInf
    ensures l0 == 0.0 && l == 0.0 ==> a == NaN
  {
    if l0 != 0.0 then Num(if l / l0 < 0.0 then -(l / l0) else l / l0)
    else if l != 0.0 then PosInf
    else NaN
  }

  /**
   * update_path as written: lagrangian_norm = abs(L / L0), then
   * (lagrangian_norm > 1.0) ? 1.0 : lagrangian_norm, which lets NaN through
   * because NaN > 1.0 is false.
   */
  function NormAsWritten(l: real, l0: real): Float
  {
    var a := AbsRatio(l, l0);
    if Less(Num(1.0), a) then Num(1.0) else a
  }

  /** As written the colour value is a number in [0, 1] exactly when L and L0 are not both zero. */
  lemma NormAsWrittenRange(l: real, l0: real)
    ensures (NormAsWritten(l, l0).Num? && 0.0 <= NormAsWritten(l, l0).v <= 1.0) <==> !(l == 0.0 && l0 == 0.0)
  {
  }

  /** The case that escapes the clamp: L = L0 = 0 gives NaN for every colour channel. */
  lemma NormZeroOverZero()
    ensures NormAsWritten(0.0, 0.0) == NaN
  {
  }

  /**
   * The clamp as intended: |L / L0| where that is at most 1, and 1 otherwise,
   * including when L0 is zero.
   */
  function Norm(l: real, l0: real): (n: real)
    ensures 0.0 <= n <= 1.0
  {
    if l0 != 0.0 && -1.0 <= l / l0 <= 1.0 then (if l / l0 < 0.0 then -(l / l0) else l / l0) else 1.0
  }

  /** Wherever the written clamp yields a number, the intended one yields the same number. */
  lemma NormAgreesWithSource(l: real, l0: real)
    ensures !(l == 0.0 && l0 == 0.0) ==> NormAsWritten(l, l0) == Num(Norm(l, l0))
    ensures l0 != 0.0 ==> (Norm(l, l0) == 1.0 <==> l / l0 >= 1.0 || l / l0 <= -1.0)
  {
  }

  /** With the intended clamp every trail colour is a proper colour, even when L0 is zero. */
  lemma CorrectedColorsInRange(l: real, l0: real)
    ensures InUnitRange(FirstColor(Num(Norm(l, l0)))) && InUnitRange(SecondColor(Num(Norm(l, l0))))
  {
  }

  // ------------------------------------------------------------------ colours

  /** 1.0 − n on floats: NaN stays NaN and an infinity changes sign. */
  function OneMinus(n: Float): (r: Float)
    ensures n.Num? ==> r == Num(1.0 - n.v)
    ensures n == NaN <==> r == NaN
  {
    match n
    case Num(v) => Num(1.0 - v)
    case PosInf => NegInf
    case NegInf => PosInf
    case NaN => NaN
  }

  /** color1: blue at norm 0 shading to yellow at norm 1. */
  function FirstColor(n: Float): Color
  {
    Color(n, n, OneMinus(n))
  }

  /** color2: red at norm 0 shading to cyan at norm 1. */
  function SecondColor(n: Float): Color
  {
    Color(OneMinus(n), n, n)
  }

  /** Every channel of a colour is a number in [0, 1]. */
  predicate InUnitRange(c: Color)
  {
    && c.r.Num? && 0.0 <= c.r.v <= 1.0
    && c.g.Num? && 0.0 <= c.g.v <= 1.0
    && c.b.Num? && 0.0 <= c.b.v <= 1.0
  }

  /**
   * The colours of a trail point as the demos compute them: color1 has
   * r = g and b = 1 − r, and color2 is color1 with red and blue swapped.
   * Every channel is a number in [0, 1] unless L and L0 are both zero, and
   * then every channel of both colours is NaN.
   */
  lemma ColorsFromNorm(l: real, l0: real)
    ensures var c := FirstColor(NormAsWritten(l, l0));
            c.r == c.g && c.b == OneMinus(c.r) && SecondColor(NormAsWritten(l, l0)) == Color(c.b, c.g, c.r)
    ensures !(l == 0.0 && l0 == 0.0) ==>
              InUnitRange(FirstColor(NormAsWritten(l, l0))) && InUnitRange(SecondColor(NormAsWritten(l, l0)))
    ensures l == 0.0 && l0 == 0.0 ==>
              FirstColor(NormAsWritten(l, l0)) == Color(NaN, NaN, NaN) && SecondColor(NormAsWritten(l, l0)) == Color(NaN, NaN, NaN)
  {
    NormAsWrittenRange(l, l0);
  }
}
