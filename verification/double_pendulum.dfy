/**
 * The hw6 Part1 double spring pendulum demo: a first bob on a spring hung
 * from the origin and a second bob on a spring hung from the first, both
 * stepped with the discrete Lagrangian every idle callback, each leaving a
 * coloured trail of its last 1000 positions. The globals are the fields of
 * one object.
 */
module DoublePendulum {
  import opened LinAlg
  import opened EnergyTotals
  import opened SpringPendulums
  import Floats

  /** sqrt(x1² + y1²): the first spring's length. */
  function FirstLength(math: Math, b1: Bob): real
  {
    math.sqrt(b1.x * b1.x + b1.y * b1.y)
  }

  /** sqrt((x1 − x2)² + (y1 − y2)²): the second spring's length as compute_lagrangian writes it. */
  function SecondLength(math: Math, b1: Bob, b2: Bob): real
  {
    math.sqrt((b1.x - b2.x) * (b1.x - b2.x) + (b1.y - b2.y) * (b1.y - b2.y))
  }

  /** sqrt(pow(x1 − x2, 2) + pow(y1 − y2, 2)): the second spring's length as update_pendulums writes it. */
  function SecondLengthByPow(math: Math, b1: Bob, b2: Bob): real
  {
    math.sqrt(math.pow(b1.x - b2.x, 2.0) + math.pow(b1.y - b2.y, 2.0))
  }

  /** Both springs' elastic energies less the work of gravity on both bobs. */
  function PotentialOf(math: Math, b1: Bob, b2: Bob): real
  {
    1.0 / 2.0 * b1.k * (FirstLength(math, b1) - b1.rl) * (FirstLength(math, b1) - b1.rl)
    + 1.0 / 2.0 * b2.k * (SecondLength(math, b1, b2) - b2.rl) * (SecondLength(math, b1, b2) - b2.rl)
    - b1.m * G * b1.y
    - b2.m * G * b2.y
  }

  /** The kinetic energy of both bobs. */
  function KineticOfBoth(b1: Bob, b2: Bob): (e: real)
    requires b1.m > 0.0 && b2.m > 0.0
    ensures e >= 0.0
  {
    KineticOf(b1) + KineticOf(b2)
  }

  /** ke − pe, the value compute_lagrangian returns. */
  function Lagrangian(math: Math, b1: Bob, b2: Bob): real
    requires b1.m > 0.0 && b2.m > 0.0
  {
    KineticOfBoth(b1, b2) - PotentialOf(math, b1, b2)
  }

  /** cl = k·(1 − rl / length): a spring's tension per unit of stretch vector. */
  function Tension(k: real, rl: real, len: real): real
    requires len != 0.0
  {
    k * (1.0 - rl / len)
  }

  /** A first bob's new velocity along one axis: v − dt/m·f, with f the springs' pull and gravity on it. */
  function PulledBack(m: real, p: real, f: real): real
    requires m != 0.0
  {
    p / m - Dt / m * f
  }

  /** The first bob's new momentum: p − dt·f. */
  lemma PulledBackMomentum(m: real, p: real, f: real)
    requires m != 0.0
    ensures m * PulledBack(m, p, f) == p - Dt * f
  {
    var d := Dt / m;
    assert d * m == Dt;
    assert (p / m) * m == p;
  }

  /** A second bob's new velocity along one axis: v + dt/m·f, with f the spring's pull and gravity on it. */
  function PulledOn(m: real, p: real, f: real): real
    requires m != 0.0
  {
    p / m + Dt / m * f
  }

  /** The second bob's new momentum: p + dt·f. */
  lemma PulledOnMomentum(m: real, p: real, f: real)
    requires m != 0.0
    ensures m * PulledOn(m, p, f) == p + Dt * f
  {
    var d := Dt / m;
    assert d * m == Dt;
    assert (p / m) * m == p;
  }

  /**
   * update_pendulums' step: each bob's velocity moves by dt over its mass
   * times the forces of the springs on it and gravity, then each position by
   * dt times its new velocity, and each momentum is mass times new velocity.
   */
  function Stepped(math: Math, b1: Bob, b2: Bob): (s: (Bob, Bob))
    requires b1.m != 0.0 && b2.m != 0.0 && FirstLength(math, b1) != 0.0 && SecondLengthByPow(math, b1, b2) != 0.0
    ensures s.0.m == b1.m && s.0.k == b1.k && s.0.rl == b1.rl
    ensures s.1.m == b2.m && s.1.k == b2.k && s.1.rl == b2.rl
  {
    var cl1 := Tension(b1.k, b1.rl, FirstLength(math, b1));
    var cl2 := Tension(b2.k, b2.rl, SecondLengthByPow(math, b1, b2));
    var nextVx1 := PulledBack(b1.m, b1.px, b1.x * cl1 + (b1.x - b2.x) * cl2);
    var nextVy1 := PulledBack(b1.m, b1.py, b1.y * cl1 + (b1.y - b2.y) * cl2 - b1.m * G);
    var nextVx2 := PulledOn(b2.m, b2.px, (b1.x - b2.x) * cl2);
    var nextVy2 := PulledOn(b2.m, b2.py, (b1.y - b2.y) * cl2 + b2.m * G);
    (Moved(b1, nextVx1, nextVy1), Moved(b2, nextVx2, nextVy2))
  }

  /**
   * Newton's third law in the step: the second spring pulls the two bobs
   * equally and oppositely, so the bobs' total momentum changes only by dt
   * times the first spring's force and gravity on both masses.
   */
  lemma MomentumExchange(math: Math, b1: Bob, b2: Bob)
    requires b1.m != 0.0 && b2.m != 0.0 && FirstLength(math, b1) != 0.0 && SecondLengthByPow(math, b1, b2) != 0.0
    ensures var s := Stepped(math, b1, b2);
            (s.0.px - b1.px) + (s.1.px - b2.px) == -Dt * (b1.x * Tension(b1.k, b1.rl, FirstLength(math, b1)))
    ensures var s := Stepped(math, b1, b2);
            (s.0.py - b1.py) + (s.1.py - b2.py) == Dt * (-(b1.y * Tension(b1.k, b1.rl, FirstLength(math, b1))) + (b1.m + b2.m) * G)
  {
    var s := Stepped(math, b1, b2);
    var cl1 := Tension(b1.k, b1.rl, FirstLength(math, b1));
    var cl2 := Tension(b2.k, b2.rl, SecondLengthByPow(math, b1, b2));
    var ex, ey := (b1.x - b2.x) * cl2, (b1.y - b2.y) * cl2;
    var ax, ay := b1.x * cl1, b1.y * cl1;
    var gy1, gy2 := b1.m * G, b2.m * G;
    PulledBackMomentum(b1.m, b1.px, ax + ex);
    PulledBackMomentum(b1.m, b1.py, ay + ey - gy1);
    PulledOnMomentum(b2.m, b2.px, ex);
    PulledOnMomentum(b2.m, b2.py, ey + gy2);
    assert (b1.m + b2.m) * G == gy1 + gy2;
  }

  /** The demo's globals. */
  class DoublePendulumDemo {
    var m1: Bob
    var m2: Bob
    var t: real
    var ke: real
    var pe: real
    var minTotal: real
    var maxTotal: real
    var lagrangian0: real
    var path1: seq<Point>
    var path2: seq<Point>
    var pathColors1: seq<Color>
    var pathColors2: seq<Color>
    /** Every total ke + pe computed so far, oldest first. */
    ghost var totals: seq<real>
    /** Every point and colour traced so far on each trail, oldest first. */
    ghost var points1: seq<Point>
    ghost var points2: seq<Point>
    ghost var colors1: seq<Color>
    ghost var colors2: seq<Color>
    /** The number of steps taken. */
    ghost var steps: nat

    /** min_total and max_total are the range of every total computed so far. */
    ghost predicate EnergyValid()
      reads this
    {
      Totals(minTotal, maxTotal) == RecordAll(totals)
    }

    /** The first bob's trail and its colours are the last 1000 entries of equally long histories. */
    ghost predicate FirstTrailValid()
      reads this
    {
      |points1| == |colors1| && path1 == Recent(points1) && pathColors1 == Recent(colors1)
    }

    /** The second bob's trail and its colours likewise. */
    ghost predicate SecondTrailValid()
      reads this
    {
      |points2| == |colors2| && path2 == Recent(points2) && pathColors2 == Recent(colors2)
    }

    /** The four trails are the last 1000 entries of four equally long histories. */
    ghost predicate TrailsValid()
      reads this
    {
      FirstTrailValid() && SecondTrailValid() && |points1| == |points2|
    }

    /** The bobs, the clock, the energies and their range as they were. */
    twostate predicate StateUnchanged()
      reads this
    {
      m1 == old(m1) && m2 == old(m2) && t == old(t) && steps == old(steps) && lagrangian0 == old(lagrangian0) &&
      ke == old(ke) && pe == old(pe) && minTotal == old(minTotal) && maxTotal == old(maxTotal) && totals == old(totals)
    }

    /** The first trail as it was. */
    twostate predicate FirstTrailUnchanged()
      reads this
    {
      path1 == old(path1) && pathColors1 == old(pathColors1) && points1 == old(points1) && colors1 == old(colors1)
    }

    /** The second trail as it was. */
    twostate predicate SecondTrailUnchanged()
      reads this
    {
      path2 == old(path2) && pathColors2 == old(pathColors2) && points2 == old(points2) && colors2 == old(colors2)
    }

    /**
     * The masses, spring constants and rest lengths main sets never change,
     * the trails and the energy range are right, and the clock reads
     * steps·dt.
     */
    ghost predicate Valid()
      reads this
    {
      m1.m == 1.0 && m1.k == 20.0 && m1.rl == 1.0 &&
      m2.m == 1.0 && m2.k == 20.0 && m2.rl == 1.0 &&
      TrailsValid() && EnergyValid() && t == steps as real * Dt
    }

    /** main: both bobs at rest where the arguments put them, and lagrangian_0 from compute_lagrangian. */
    constructor(math: Math, x1: real, y1: real, x2: real, y2: real)
      ensures Valid()
      ensures m1 == InitialBob(x1, y1) && m2 == InitialBob(x2, y2) && t == 0.0 && steps == 0
      ensures path1 == [] && path2 == [] && pathColors1 == [] && pathColors2 == []
      ensures ke == KineticOfBoth(m1, m2) && pe == PotentialOf(math, m1, m2) && lagrangian0 == ke - pe
      ensures totals == [ke + pe] && Totals(minTotal, maxTotal) == Record(Initial, ke + pe)
    {
      m1 := InitialBob(x1, y1);
      m2 := InitialBob(x2, y2);
      t := 0.0;
      ke, pe := 0.0, 0.0;
      minTotal, maxTotal := FltMax, -FltMax;
      lagrangian0 := 0.0;
      path1, path2, pathColors1, pathColors2 := [], [], [], [];
      totals, points1, points2, colors1, colors2 := [], [], [], [], [];
      steps := 0;
      new;
      lagrangian0 := ComputeLagrangian(math);
    }

    /** compute_lagrangian: sets ke and pe for both bobs, widens the range to their sum, and returns ke − pe. */
    method ComputeLagrangian(math: Math) returns (l: real)
      requires m1.m > 0.0 && m2.m > 0.0 && EnergyValid()
      modifies this
      ensures m1 == old(m1) && m2 == old(m2) && t == old(t) && lagrangian0 == old(lagrangian0) && steps == old(steps)
      ensures path1 == old(path1) && path2 == old(path2) && pathColors1 == old(pathColors1) && pathColors2 == old(pathColors2)
      ensures points1 == old(points1) && points2 == old(points2) && colors1 == old(colors1) && colors2 == old(colors2)
      ensures ke == KineticOfBoth(m1, m2) && pe == PotentialOf(math, m1, m2) && l == Lagrangian(math, m1, m2)
      ensures totals == old(totals) + [ke + pe]
      ensures Totals(minTotal, maxTotal) == Record(Totals(old(minTotal), old(maxTotal)), ke + pe)
      ensures EnergyValid()
    {
      ke := KineticOfBoth(m1, m2);
      pe := PotentialOf(math, m1, m2);
      RecordTotal(ke + pe);
      return ke - pe;
    }

    /** The end of compute_lagrangian: the total widens the range of totals. */
    method RecordTotal(total: real)
      requires EnergyValid()
      modifies this
      ensures m1 == old(m1) && m2 == old(m2) && t == old(t) && lagrangian0 == old(lagrangian0) && steps == old(steps)
      ensures ke == old(ke) && pe == old(pe)
      ensures path1 == old(path1) && path2 == old(path2) && pathColors1 == old(pathColors1) && pathColors2 == old(pathColors2)
      ensures points1 == old(points1) && points2 == old(points2) && colors1 == old(colors1) && colors2 == old(colors2)
      ensures totals == old(totals) + [total]
      ensures Totals(minTotal, maxTotal) == Record(Totals(old(minTotal), old(maxTotal)), total)
      ensures EnergyValid()
    {
      minTotal := if total < minTotal then total else minTotal;
      maxTotal := if total > maxTotal then total else maxTotal;
      totals := totals + [total];
      assert totals[..|totals| - 1] == old(totals);
    }

    /**
     * update_path: both bobs' positions are traced, the first trail
     * coloured by the Lagrangian relative to lagrangian_0 and the second in
     * the mirrored colour.
     */
    method UpdatePath(math: Math)
      requires Valid()
      modifies this
      ensures m1 == old(m1) && m2 == old(m2) && t == old(t) && lagrangian0 == old(lagrangian0) && steps == old(steps)
      ensures ke == KineticOfBoth(m1, m2) && pe == PotentialOf(math, m1, m2)
      ensures totals == old(totals) + [ke + pe]
      ensures Totals(minTotal, maxTotal) == Record(Totals(old(minTotal), old(maxTotal)), ke + pe)
      ensures path1 == Trailed(old(path1), At(m1)) && path2 == Trailed(old(path2), At(m2))
      ensures pathColors1 == Trailed(old(pathColors1), FirstColor(NormAsWritten(ke - pe, lagrangian0)))
      ensures pathColors2 == Trailed(old(pathColors2), SecondColor(NormAsWritten(ke - pe, lagrangian0)))
      ensures Valid()
    {
      var point1 := Point(m1.x, m1.y);
      var point2 := Point(m2.x, m2.y);
      var l := ComputeLagrangian(math);
      var norm := AbsRatio(l, lagrangian0);
      norm := if Floats.Less(Floats.Num(1.0), norm) then Floats.Num(1.0) else norm;
      var color1 := Color(norm, norm, OneMinus(norm));
      var color2 := Color(OneMinus(norm), norm, norm);
      Trace(point1, point2, color1, color2);
    }

    /**
     * The trail side of update_path: when the first trail is full the
     * oldest entry of all four goes, then the new ones are appended.
     */
    method Trace(point1: Point, point2: Point, color1: Color, color2: Color)
      requires TrailsValid()
      modifies this
      ensures StateUnchanged()
      ensures points1 == old(points1) + [point1] && points2 == old(points2) + [point2]
      ensures colors1 == old(colors1) + [color1] && colors2 == old(colors2) + [color2]
      ensures path1 == Trailed(old(path1), point1) && path2 == Trailed(old(path2), point2)
      ensures pathColors1 == Trailed(old(pathColors1), color1) && pathColors2 == Trailed(old(pathColors2), color2)
      ensures TrailsValid()
    {
      RecentSameLength(points1, points2);
      var full := |path1| == MaxNumPoints;
      TraceFirst(full, point1, color1);
      TraceSecond(full, point2, color2);
    }

    /** The first bob's trail and colours: erase the oldest if the first trail was full, then append. */
    method TraceFirst(full: bool, point1: Point, color1: Color)
      requires FirstTrailValid() && (full <==> |path1| == MaxNumPoints)
      modifies this
      ensures StateUnchanged() && SecondTrailUnchanged()
      ensures points1 == old(points1) + [point1] && colors1 == old(colors1) + [color1]
      ensures path1 == Trailed(old(path1), point1) && pathColors1 == Trailed(old(pathColors1), color1)
      ensures FirstTrailValid()
    {
      RecentSameLength(points1, colors1);
      var p := PushBounded(points1, path1, full, point1);
      var c := PushBounded(colors1, pathColors1, full, color1);
      path1, pathColors1 := p, c;
      points1, colors1 := points1 + [point1], colors1 + [color1];
    }

    /** The second bob's trail and colours: erase the oldest if the first trail was full, then append. */
    method TraceSecond(full: bool, point2: Point, color2: Color)
      requires SecondTrailValid() && (full <==> |path2| == MaxNumPoints)
      modifies this
      ensures StateUnchanged() && FirstTrailUnchanged()
      ensures points2 == old(points2) + [point2] && colors2 == old(colors2) + [color2]
      ensures path2 == Trailed(old(path2), point2) && pathColors2 == Trailed(old(pathColors2), color2)
      ensures SecondTrailValid()
    {
      RecentSameLength(points2, colors2);
      var p := PushBounded(points2, path2, full, point2);
      var c := PushBounded(colors2, pathColors2, full, color2);
      path2, pathColors2 := p, c;
      points2, colors2 := points2 + [point2], colors2 + [color2];
    }

    /** update_pendulums: one step of both bobs, and the clock moves on by dt. */
    method UpdatePendulums(math: Math)
      requires Valid() && FirstLength(math, m1) != 0.0 && SecondLengthByPow(math, m1, m2) != 0.0
      modifies this
      ensures (m1, m2) == Stepped(math, old(m1), old(m2))
      ensures t == old(t) + Dt && steps == old(steps) + 1
      ensures ke == old(ke) && pe == old(pe) && minTotal == old(minTotal) && maxTotal == old(maxTotal)
      ensures lagrangian0 == old(lagrangian0) && totals == old(totals)
      ensures path1 == old(path1) && path2 == old(path2) && pathColors1 == old(pathColors1) && pathColors2 == old(pathColors2)
      ensures points1 == old(points1) && points2 == old(points2) && colors1 == old(colors1) && colors2 == old(colors2)
      ensures Valid()
    {
      var s := Stepped(math, m1, m2);
      m1, m2 := s.0, s.1;
      t := t + Dt;
      steps := steps + 1;
    }

    /** update, the idle callback: trace both paths, then step both bobs. */
    method Update(math: Math)
      requires Valid() && FirstLength(math, m1) != 0.0 && SecondLengthByPow(math, m1, m2) != 0.0
      modifies this
      ensures (m1, m2) == Stepped(math, old(m1), old(m2)) && t == old(t) + Dt
      ensures path1 == Trailed(old(path1), At(old(m1))) && path2 == Trailed(old(path2), At(old(m2)))
      ensures |path1| == |path2| == |pathColors1| == |pathColors2| <= MaxNumPoints
      ensures totals == old(totals) + [KineticOfBoth(old(m1), old(m2)) + PotentialOf(math, old(m1), old(m2))]
      ensures Valid()
    {
      ghost var trail1, trail2, recorded := path1, path2, totals;
      ghost var energy := KineticOfBoth(m1, m2) + PotentialOf(math, m1, m2);
      UpdatePath(math);
      assert path1 == Trailed(trail1, At(m1)) && path2 == Trailed(trail2, At(m2));
      assert totals == recorded + [energy];
      UpdatePendulums(math);
    }
  }
}
