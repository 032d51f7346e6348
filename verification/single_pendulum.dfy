/**
 * The hw6 Part1 single spring pendulum demo: a bob on a spring hung from
 * the origin, stepped with the discrete Lagrangian (symplectic Euler) every
 * idle callback, with the energies, their running range, the clock and the
 * coloured trail of the last 1000 positions kept in globals, modelled here
 * as the fields of one object.
 */
module SinglePendulum {
  import opened LinAlg
  import opened EnergyTotals
  import opened SpringPendulums
  import Floats

  /** sqrt(x² + y²): the spring's length. */
  function SpringLength(math: Math, b: Bob): real
  {
    math.sqrt(b.x * b.x + b.y * b.y)
  }

  /** The spring's elastic energy ½·k·(length − rl)² less the work of gravity m·g·y. */
  function PotentialOf(math: Math, b: Bob): real
  {
    1.0 / 2.0 * b.k * (SpringLength(math, b) - b.rl) * (SpringLength(math, b) - b.rl) - b.m * G * b.y
  }

  /** ke − pe, the value compute_lagrangian returns. */
  function Lagrangian(math: Math, b: Bob): real
    requires b.m > 0.0
  {
    KineticOf(b) - PotentialOf(math, b)
  }

  /** The new velocity along one axis under the spring alone: v − dt·(k/m)·(1 − rl/length)·x. */
  function SpringVelocity(m: real, p: real, k: real, rl: real, len: real, x: real): real
    requires m != 0.0 && len != 0.0
  {
    p / m - Dt * (k / m) * (1.0 - rl / len) * x
  }

  /**
   * update_pendulum's step: the velocity moves by dt times the spring's
   * and gravity's acceleration, then the position by dt times the new
   * velocity, and the momentum is the new velocity times the mass.
   */
  function Stepped(math: Math, b: Bob): (s: Bob)
    requires b.m != 0.0 && SpringLength(math, b) != 0.0
    ensures s.m == b.m && s.k == b.k && s.rl == b.rl
  {
    var nextVx := SpringVelocity(b.m, b.px, b.k, b.rl, SpringLength(math, b), b.x);
    var nextVy := SpringVelocity(b.m, b.py, b.k, b.rl, SpringLength(math, b), b.y) + Dt * G;
    Moved(b, nextVx, nextVy)
  }

  /** Hooke's law along one axis: −k·(length − rl) times that axis's share x / length of the direction. */
  function Hooke(k: real, rl: real, len: real, x: real): real
    requires len != 0.0
  {
    -k * (len - rl) * (x / len)
  }

  /** The momentum the spring alone leaves: p plus dt times Hooke's force. */
  lemma SpringMomentum(m: real, p: real, k: real, rl: real, len: real, x: real)
    requires m != 0.0 && len != 0.0
    ensures m * SpringVelocity(m, p, k, rl, len, x) == p + Dt * Hooke(k, rl, len, x)
  {
    var q := rl / len;
    var u := x / len;
    assert q * len == rl;
    assert u * len == x;
    assert (1.0 - q) * x == (len - rl) * u by {
      calc {
        (len - rl) * u;
        len * u - rl * u;
        x - q * len * u;
        x - q * x;
        (1.0 - q) * x;
      }
    }
    var w := (len - rl) * u;
    assert Hooke(k, rl, len, x) == -k * w;
    var c := k / m;
    assert c * m == k;
    calc {
      m * SpringVelocity(m, p, k, rl, len, x);
      m * (p / m - Dt * c * ((1.0 - q) * x));
      m * (p / m - Dt * c * w);
      m * (p / m) - Dt * (c * m) * w;
      p - Dt * k * w;
    }
  }

  /**
   * The step is Newton's second law under Hooke's law and gravity: each
   * momentum moves by dt times the force on its axis, and the position by dt
   * times the new velocity.
   */
  lemma SteppedIsNewton(math: Math, b: Bob)
    requires b.m != 0.0 && SpringLength(math, b) != 0.0
    ensures Stepped(math, b).px == b.px + Dt * Hooke(b.k, b.rl, SpringLength(math, b), b.x)
    ensures Stepped(math, b).py == b.py + Dt * (Hooke(b.k, b.rl, SpringLength(math, b), b.y) + b.m * G)
    ensures Stepped(math, b).x == b.x + Dt * (Stepped(math, b).px / b.m)
    ensures Stepped(math, b).y == b.y + Dt * (Stepped(math, b).py / b.m)
  {
    SteppedAlongX(math, b);
    SteppedAlongY(math, b);
  }

  lemma SteppedAlongX(math: Math, b: Bob)
    requires b.m != 0.0 && SpringLength(math, b) != 0.0
    ensures Stepped(math, b).px == b.px + Dt * Hooke(b.k, b.rl, SpringLength(math, b), b.x)
    ensures Stepped(math, b).x == b.x + Dt * (Stepped(math, b).px / b.m)
  {
    var len := SpringLength(math, b);
    var vx := SpringVelocity(b.m, b.px, b.k, b.rl, len, b.x);
    SpringMomentum(b.m, b.px, b.k, b.rl, len, b.x);
    AxisStep(b.m, b.px, vx, Hooke(b.k, b.rl, len, b.x), 0.0);
    MovedFollowsMomentum(b, vx, SpringVelocity(b.m, b.py, b.k, b.rl, len, b.y) + Dt * G);
  }

  lemma SteppedAlongY(math: Math, b: Bob)
    requires b.m != 0.0 && SpringLength(math, b) != 0.0
    ensures Stepped(math, b).py == b.py + Dt * (Hooke(b.k, b.rl, SpringLength(math, b), b.y) + b.m * G)
    ensures Stepped(math, b).y == b.y + Dt * (Stepped(math, b).py / b.m)
  {
    var len := SpringLength(math, b);
    var vy := SpringVelocity(b.m, b.py, b.k, b.rl, len, b.y);
    SpringMomentum(b.m, b.py, b.k, b.rl, len, b.y);
    AxisStep(b.m, b.py, vy, Hooke(b.k, b.rl, len, b.y), G);
    MovedFollowsMomentum(b, SpringVelocity(b.m, b.px, b.k, b.rl, len, b.x), vy + Dt * G);
  }

  /** One axis of the step, with the spring's velocity and force as plain numbers. */
  lemma AxisStep(m: real, p: real, v: real, h: real, a: real)
    requires m != 0.0 && m * v == p + Dt * h
    ensures m * (v + Dt * a) == p + Dt * (h + m * a)
  {
  }

  /**
   * A demo started on the x axis at the spring's rest length, as with
   * arguments x = 1 and y = 0, has no kinetic and no potential energy, so its
   * initial Lagrangian is 0, and the first trail point's colour as written
   * is abs(0 / 0) = NaN.
   */
  lemma RestStartHasZeroLagrangian(math: Math)
    requires SqrtLaw(math)
    ensures Lagrangian(math, InitialBob(1.0, 0.0)) == 0.0
    ensures var l0 := Lagrangian(math, InitialBob(1.0, 0.0)); NormAsWritten(l0, l0) == Floats.NaN
  {
    var b := InitialBob(1.0, 0.0);
    assert b.x * b.x + b.y * b.y == 1.0;
    SqrtOfOne(math);
    assert SpringLength(math, b) == math.sqrt(1.0);
    NormZeroOverZero();
  }

  /** The demo's globals. */
  class SpringPendulumDemo {
    var m1: Bob
    var t: real
    var ke: real
    var pe: real
    var minTotal: real
    var maxTotal: real
    var lagrangian0: real
    var path1: seq<Point>
    var pathColors1: seq<Color>
    /** Every total ke + pe computed so far, oldest first. */
    ghost var totals: seq<real>
    /** Every point and colour traced so far, oldest first. */
    ghost var points: seq<Point>
    ghost var colors: seq<Color>
    /** The number of steps taken. */
    ghost var steps: nat

    /** min_total and max_total are the range of every total computed so far. */
    ghost predicate EnergyValid()
      reads this
    {
      Totals(minTotal, maxTotal) == RecordAll(totals)
    }

    /**
     * The mass, spring constant and rest length main sets never change, the
     * trails are the last 1000 points and colours traced, the energy range
     * is right, and the clock reads steps·dt.
     */
    ghost predicate Valid()
      reads this
    {
      m1.m == 1.0 && m1.k == 20.0 && m1.rl == 1.0 &&
      |points| == |colors| && path1 == Recent(points) && pathColors1 == Recent(colors) &&
      EnergyValid() && t == steps as real * Dt
    }

    /** main: the bob at rest at (x, y), and lagrangian_0 from compute_lagrangian. */
    constructor(math: Math, x: real, y: real)
      ensures Valid()
      ensures m1 == InitialBob(x, y) && t == 0.0 && steps == 0
      ensures path1 == [] && pathColors1 == [] && points == [] && colors == []
      ensures ke == KineticOf(m1) && pe == PotentialOf(math, m1) && lagrangian0 == ke - pe
      ensures totals == [ke + pe] && Totals(minTotal, maxTotal) == Record(Initial, ke + pe)
    {
      m1 := InitialBob(x, y);
      t := 0.0;
      ke, pe := 0.0, 0.0;
      minTotal, maxTotal := FltMax, -FltMax;
      lagrangian0 := 0.0;
      path1, pathColors1 := [], [];
      totals, points, colors := [], [], [];
      steps := 0;
      new;
      lagrangian0 := ComputeLagrangian(math);
    }

    /** compute_lagrangian: sets ke and pe, widens the range to their sum, and returns ke − pe. */
    method ComputeLagrangian(math: Math) returns (l: real)
      requires m1.m > 0.0 && EnergyValid()
      modifies this
      ensures m1 == old(m1) && t == old(t) && lagrangian0 == old(lagrangian0) && steps == old(steps)
      ensures path1 == old(path1) && pathColors1 == old(pathColors1) && points == old(points) && colors == old(colors)
      ensures ke == KineticOf(m1) && pe == PotentialOf(math, m1) && l == Lagrangian(math, m1)
      ensures totals == old(totals) + [ke + pe]
      ensures Totals(minTotal, maxTotal) == Record(Totals(old(minTotal), old(maxTotal)), ke + pe)
      ensures EnergyValid()
    {
      ke := KineticOf(m1);
      pe := PotentialOf(math, m1);
      RecordTotal(ke + pe);
      return ke - pe;
    }

    /** The end of compute_lagrangian: the total widens the range of totals. */
    method RecordTotal(total: real)
      requires EnergyValid()
      modifies this
      ensures m1 == old(m1) && t == old(t) && lagrangian0 == old(lagrangian0) && steps == old(steps) && ke == old(ke) && pe == old(pe)
      ensures path1 == old(path1) && pathColors1 == old(pathColors1) && points == old(points) && colors == old(colors)
      ensures totals == old(totals) + [total]
      ensures Totals(minTotal, maxTotal) == Record(Totals(old(minTotal), old(maxTotal)), total)
      ensures EnergyValid()
    {
      minTotal := if total < minTotal then total else minTotal;
      maxTotal := if total > maxTotal then total else maxTotal;
      totals := totals + [total];
      assert totals[..|totals| - 1] == old(totals);
    }

    /**
     * update_path: the oldest point and colour go when the trail is full,
     * then the bob's position and the colour of the current Lagrangian
     * relative to lagrangian_0 are appended.
     */
    method UpdatePath(math: Math)
      requires Valid()
      modifies this
      ensures m1 == old(m1) && t == old(t) && lagrangian0 == old(lagrangian0) && steps == old(steps)
      ensures ke == KineticOf(m1) && pe == PotentialOf(math, m1)
      ensures totals == old(totals) + [ke + pe]
      ensures Totals(minTotal, maxTotal) == Record(Totals(old(minTotal), old(maxTotal)), ke + pe)
      ensures points == old(points) + [At(m1)]
      ensures colors == old(colors) + [FirstColor(NormAsWritten(ke - pe, lagrangian0))]
      ensures path1 == Trailed(old(path1), At(m1))
      ensures pathColors1 == Trailed(old(pathColors1), FirstColor(NormAsWritten(ke - pe, lagrangian0)))
      ensures Valid()
    {
      var point1 := Point(m1.x, m1.y);
      var l := ComputeLagrangian(math);
      var norm := LagrangianNorm(l, lagrangian0);
      var color1 := Color(norm, norm, OneMinus(norm));
      Trace(point1, color1);
    }

    /** The colour value of update_path: abs(L / L0), clamped at 1 by a comparison NaN fails. */
    static method LagrangianNorm(l: real, l0: real) returns (norm: Floats.Float)
      ensures norm == NormAsWritten(l, l0)
    {
      norm := AbsRatio(l, l0);
      norm := if Floats.Less(Floats.Num(1.0), norm) then Floats.Num(1.0) else norm;
    }

    /**
     * The trail side of update_path: the oldest point and colour go when the
     * trail is full, then the new ones are appended.
     */
    method Trace(point1: Point, color1: Color)
      requires |points| == |colors| && path1 == Recent(points) && pathColors1 == Recent(colors)
      modifies this
      ensures m1 == old(m1) && t == old(t) && lagrangian0 == old(lagrangian0) && steps == old(steps)
      ensures ke == old(ke) && pe == old(pe) && minTotal == old(minTotal) && maxTotal == old(maxTotal) && totals == old(totals)
      ensures points == old(points) + [point1] && colors == old(colors) + [color1]
      ensures path1 == Trailed(old(path1), point1) && pathColors1 == Trailed(old(pathColors1), color1)
      ensures |points| == |colors| && path1 == Recent(points) && pathColors1 == Recent(colors)
    {
      RecentSameLength(points, colors);
      var full := |path1| == MaxNumPoints;
      var path := PushBounded(points, path1, full, point1);
      var pathColors := PushBounded(colors, pathColors1, full, color1);
      path1, pathColors1 := path, pathColors;
      points, colors := points + [point1], colors + [color1];
    }

    /** update_pendulum: one step of the bob, and the clock moves on by dt. */
    method UpdatePendulum(math: Math)
      requires Valid() && SpringLength(math, m1) != 0.0
      modifies this
      ensures m1 == Stepped(math, old(m1))
      ensures t == old(t) + Dt && steps == old(steps) + 1
      ensures ke == old(ke) && pe == old(pe) && minTotal == old(minTotal) && maxTotal == old(maxTotal)
      ensures lagrangian0 == old(lagrangian0) && totals == old(totals)
      ensures path1 == old(path1) && pathColors1 == old(pathColors1) && points == old(points) && colors == old(colors)
      ensures Valid()
    {
      m1 := Stepped(math, m1);
      t := t + Dt;
      steps := steps + 1;
    }

    /** update, the idle callback: trace the path, then step the pendulum. */
    method Update(math: Math)
      requires Valid() && SpringLength(math, m1) != 0.0
      modifies this
      ensures m1 == Stepped(math, old(m1)) && t == old(t) + Dt
      ensures path1 == Trailed(old(path1), At(old(m1)))
      ensures |path1| <= MaxNumPoints && |path1| == |pathColors1| && path1[|path1| - 1] == At(old(m1))
      ensures totals == old(totals) + [KineticOf(old(m1)) + PotentialOf(math, old(m1))]
      ensures Valid()
    {
      UpdatePath(math);
      UpdatePendulum(math);
    }
  }
}
