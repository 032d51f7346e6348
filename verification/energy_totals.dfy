/**
 * The running minimum and maximum of the total energy ke + pe that the
 * hw6 Part1 demos (Elasticity, single and double spring pendulum) show on
 * screen: both start at the float extremes and each frame's total widens
 * them.
 */
module EnergyTotals {

  /** FLT_MAX from cfloat: (2 − 2^−23) · 2^127. */
  const FltMax: real := 340282346638528859811704183484516925440.0

  /** min_total and max_total. */
  datatype Totals = Totals(lo: real, hi: real)

  /** min_total = FLT_MAX, max_total = −FLT_MAX before the first frame. */
  const Initial: Totals := Totals(FltMax, -FltMax)

  /**
   * min_total = (total < min_total) ? total : min_total, and max_total
   * likewise: the range widens just enough to hold the new total.
   */
  function Record(r: Totals, total: real): (r': Totals)
    ensures r'.lo <= total <= r'.hi
    ensures r'.lo <= r.lo && r.hi <= r'.hi
    ensures r'.lo == r.lo || r'.lo == total
    ensures r'.hi == r.hi || r'.hi == total
  {
    Totals(if total < r.lo then total else r.lo, if total > r.hi then total else r.hi)
  }

  /** The range after the totals of the frames so far, oldest first. */
  function RecordAll(totals: seq<real>): Totals
  {
    if totals == [] then Initial else Record(RecordAll(totals[..|totals| - 1]), totals[|totals| - 1])
  }

  /**
   * After any frames, every total seen lies within the range. When there
   * was at least one frame and every total is a finite float, the two ends
   * are totals that were seen: the range is exactly from the least to the
   * greatest.
   */
  lemma {:induction false} RecordAllIsRange(totals: seq<real>)
    ensures forall i :: 0 <= i < |totals| ==> RecordAll(totals).lo <= totals[i] <= RecordAll(totals).hi
    ensures totals != [] && (forall i :: 0 <= i < |totals| ==> -FltMax <= totals[i] <= FltMax) ==>
              RecordAll(totals).lo in totals && RecordAll(totals).hi in totals
    decreases |totals|
  {
    if totals != [] {
      var front := totals[..|totals| - 1];
      RecordAllIsRange(front);
      assert forall i :: 0 <= i < |front| ==> front[i] == totals[i];
      if front == [] {
        assert totals == [totals[0]];
      } else {
        if forall i :: 0 <= i < |totals| ==> -FltMax <= totals[i] <= FltMax {
          assert forall i :: 0 <= i < |front| ==> -FltMax <= front[i] <= FltMax;
          assert RecordAll(front).lo in totals;
          assert RecordAll(front).hi in totals;
        }
      }
    }
  }
}
