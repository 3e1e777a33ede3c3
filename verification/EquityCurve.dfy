/** Falls of an equity curve: what the one-pass drawdown computes, and what it should. */
module EquityCurve {
  import opened Common

  /** The relative fall from one level to another; none from zero. */
  function Fall(high: real, low: real): real {
    if high == 0.0 then 0.0 else (high - low) / high
  }

  /** `d` is the deepest fall from any earlier positive equity, and some pair reaches it. */
  ghost predicate DeepestFall(curve: seq<real>, d: real) {
    && (exists j, k | 0 <= j <= k < |curve| :: curve[j] > 0.0 && d == Fall(curve[j], curve[k]))
    && (forall j, k | 0 <= j <= k < |curve| && curve[j] > 0.0 :: Fall(curve[j], curve[k]) <= d)
  }

  ghost predicate NeverNegative(curve: seq<real>) {
    forall k | 0 <= k < |curve| :: curve[k] >= 0.0
  }

  /** One pass: at every point, the fall from the peak so far. */
  function OnePass(curve: seq<real>): real {
    if |curve| <= 1 then 0.0
    else Max(OnePass(curve[..|curve| - 1]), Fall(MaxOf(curve), curve[|curve| - 1]))
  }

  /** The smallest positive level of a curve that starts with one. */
  function LeastPositive(curve: seq<real>): (m: real)
    requires curve != [] && curve[0] > 0.0
    ensures m > 0.0 && m in curve
    ensures forall x | x in curve && x > 0.0 :: m <= x
  {
    var n := |curve| - 1;
    if n == 0 then curve[0]
    else
      var m := LeastPositive(curve[..n]);
      assert curve == curve[..n] + [curve[n]];
      if curve[n] > 0.0 then Min(m, curve[n]) else m
  }

  /** The level from which the fall to the last one is deepest: the peak, or below zero the smallest positive. */
  function Reference(curve: seq<real>): real
    requires curve != [] && curve[0] > 0.0
  {
    if curve[|curve| - 1] >= 0.0 then MaxOf(curve) else LeastPositive(curve)
  }

  /** At every point, the fall from its reference. */
  function Worst(curve: seq<real>): real
    requires curve != [] && curve[0] > 0.0
  {
    if |curve| == 1 then 0.0
    else Max(Worst(curve[..|curve| - 1]), Fall(Reference(curve), curve[|curve| - 1]))
  }

  lemma FallIs(high: real, low: real)
    requires high > 0.0
    ensures Fall(high, low) == 1.0 - low / high
  {
    QuotientTimes(high - low, high);
    QuotientTimes(low, high);
    var fall, rest := (high - low) / high, low / high;
    assert (fall + rest - 1.0) * high == 0.0;
    ProductSign(fall + rest - 1.0, high);
  }

  /** A fall to a level that is not negative is the deeper the higher it starts. */
  lemma FallOrder(high: real, higher: real, low: real)
    requires 0.0 < high <= higher
    ensures low >= 0.0 ==> Fall(high, low) <= Fall(higher, low) <= 1.0
    ensures low < 0.0 ==> (Fall(high, low) <= Fall(higher, low) <==> high == higher)
  {
    var small, large := low / higher, low / high;
    QuotientTimes(low, higher);
    QuotientTimes(low, high);
    FallIs(high, low);
    FallIs(higher, low);
    hide Fall;
    assert small * higher == large * high;
    if low >= 0.0 {
      QuotientSign(low, higher);
      QuotientOrder(low, high, small);
      ProductOrder(high, higher, small + 1.0);
      assert (small + 1.0) * high <= (small + 1.0) * higher;
      assert small * high <= low;
      assert large >= small;
    } else if high < higher {
      ProductSign(-small, higher);
      assert small < 0.0;
      assert -small * (higher - high) > 0.0;
      assert low < small * high;
      QuotientOrder(low, high, small);
      assert large < small;
    }
  }

  lemma NoFall(x: real)
    ensures Fall(x, x) == 0.0
  {
  }

  /** No earlier positive level is further above the last one, relatively, than its reference. */
  lemma ReferenceIsDeepest(curve: seq<real>, j: nat)
    requires curve != [] && curve[0] > 0.0 && j < |curve| && curve[j] > 0.0
    ensures Fall(curve[j], curve[|curve| - 1]) <= Fall(Reference(curve), curve[|curve| - 1])
    ensures Reference(curve) > 0.0 && Reference(curve) in curve
  {
    hide Fall;
    var low := curve[|curve| - 1];
    assert curve[j] in curve && curve[0] in curve;
    if low >= 0.0 {
      FallOrder(curve[j], MaxOf(curve), low);
    } else {
      FallOrder(LeastPositive(curve), curve[j], low);
      FallOrder(curve[j], curve[j], low);
    }
  }

  /**
   * At one point, the fall from the peak is the deepest from any earlier positive level exactly when the level is not
   * negative or nothing positive before it was below the peak.
   */
  lemma PeakFallIsDeepest(curve: seq<real>, peak: real)
    requires curve != [] && curve[0] > 0.0 && peak == MaxOf(curve)
    ensures var low := curve[|curve| - 1];
      (forall j | 0 <= j < |curve| && curve[j] > 0.0 :: Fall(curve[j], low) <= Fall(peak, low))
      <==> (low >= 0.0 || forall j | 0 <= j < |curve| && curve[j] > 0.0 :: curve[j] == peak)
  {
    hide Fall;
    var low := curve[|curve| - 1];
    assert curve[0] in curve;
    forall j | 0 <= j < |curve| && curve[j] > 0.0
      ensures low >= 0.0 ==> Fall(curve[j], low) <= Fall(peak, low)
      ensures low < 0.0 ==> (Fall(curve[j], low) <= Fall(peak, low) <==> curve[j] == peak)
    {
      assert curve[j] in curve;
      FallOrder(curve[j], peak, low);
    }
  }

  lemma {:induction false} WorstIsDeepest(curve: seq<real>)
    requires curve != [] && curve[0] > 0.0
    ensures DeepestFall(curve, Worst(curve))
  {
    hide Fall, Reference;
    var n := |curve| - 1;
    if n == 0 {
      NoFall(curve[0]);
      assert curve[0] > 0.0;
    } else {
      var before, here := curve[..n], Fall(Reference(curve), curve[n]);
      WorstIsDeepest(before);
      assert forall j, k | 0 <= j <= k < n && curve[j] > 0.0 :: before[j] == curve[j] && before[k] == curve[k];
      forall j, k | 0 <= j <= k < |curve| && curve[j] > 0.0
        ensures Fall(curve[j], curve[k]) <= Worst(curve)
      {
        if k < n {
          assert Fall(before[j], before[k]) <= Worst(before);
        } else {
          ReferenceIsDeepest(curve, j);
        }
      }
      if Worst(before) >= here {
        var j, k :| 0 <= j <= k < n && before[j] > 0.0 && Worst(before) == Fall(before[j], before[k]);
        assert curve[j] > 0.0 && Worst(curve) == Fall(curve[j], curve[k]);
      } else {
        ReferenceIsDeepest(curve, 0);
        var j :| 0 <= j <= n && curve[j] == Reference(curve);
        assert Worst(curve) == Fall(curve[j], curve[n]);
      }
    }
  }

  /** The deepest fall of a curve that starts positive, exactly. */
  lemma DeepestFallIs(curve: seq<real>, d: real)
    requires curve != [] && curve[0] > 0.0
    ensures DeepestFall(curve, d) <==> d == Worst(curve)
  {
    hide Fall, Worst;
    WorstIsDeepest(curve);
  }

  /** The level at `k` is below zero and more than `d` under the smallest positive level before it. */
  predicate HidesAt(curve: seq<real>, k: nat, d: real)
    requires k < |curve| && curve[0] > 0.0
  {
    curve[k] < 0.0 && Fall(LeastPositive(curve[..k + 1]), curve[k]) > d
  }

  /** Nothing below zero falls deeper than `d` from the smallest positive level before it. */
  ghost predicate NoHiddenFall(curve: seq<real>, d: real)
    requires curve != [] && curve[0] > 0.0
  {
    forall k | 0 <= k < |curve| :: !HidesAt(curve, k, d)
  }

  lemma HidesBefore(curve: seq<real>, k: nat, d: real)
    requires k < |curve| - 1 && curve[0] > 0.0
    ensures HidesAt(curve[..|curve| - 1], k, d) <==> HidesAt(curve, k, d)
  {
    hide Fall, LeastPositive;
    assert curve[..|curve| - 1][..k + 1] == curve[..k + 1];
  }

  lemma HidesLast(curve: seq<real>, d: real)
    requires curve != [] && curve[0] > 0.0
    ensures var n := |curve| - 1;
      HidesAt(curve, n, d) <==> (curve[n] < 0.0 && Fall(LeastPositive(curve), curve[n]) > d)
  {
    assert curve[..|curve|] == curve;
    hide Fall, LeastPositive;
  }

  lemma HiddenFallSplits(curve: seq<real>, d: real)
    requires |curve| > 1 && curve[0] > 0.0
    ensures var n := |curve| - 1;
      NoHiddenFall(curve, d) <==>
      (NoHiddenFall(curve[..n], d) && (curve[n] < 0.0 ==> Fall(LeastPositive(curve), curve[n]) <= d))
  {
    hide HidesAt, Fall, LeastPositive;
    var n := |curve| - 1;
    HidesLast(curve, d);
    forall k | 0 <= k < n
      ensures HidesAt(curve[..n], k, d) <==> HidesAt(curve, k, d)
    {
      HidesBefore(curve, k, d);
    }
  }

  lemma {:induction false} WorstSplits(curve: seq<real>, d: real)
    requires curve != [] && curve[0] > 0.0 && d >= OnePass(curve)
    ensures OnePass(curve) <= Worst(curve)
    ensures Worst(curve) <= d <==> NoHiddenFall(curve, d)
  {
    hide Fall, LeastPositive, NoHiddenFall;
    var n := |curve| - 1;
    if n > 0 {
      WorstSplits(curve[..n], d);
      HiddenFallSplits(curve, d);
      if curve[n] < 0.0 {
        PeakOf(curve);
      }
    } else {
      NothingHidden(curve, d);
    }
  }

  lemma NothingHidden(curve: seq<real>, d: real)
    requires |curve| == 1 && curve[0] > 0.0
    ensures NoHiddenFall(curve, d) && OnePass(curve) == 0.0 == Worst(curve)
  {
  }

  /** Below zero the fall from the peak is not the deepest. */
  lemma PeakOf(curve: seq<real>)
    requires curve != [] && curve[0] > 0.0 && curve[|curve| - 1] < 0.0
    ensures Fall(MaxOf(curve), curve[|curve| - 1]) <= Fall(LeastPositive(curve), curve[|curve| - 1])
  {
    hide Fall;
    assert curve[0] in curve;
    assert curve[0] <= MaxOf(curve);
    var j :| 0 <= j < |curve| && curve[j] == MaxOf(curve);
    ReferenceIsDeepest(curve, j);
  }

  /**
   * The one-pass drawdown of a curve that starts positive is its deepest fall exactly when no level below zero hides
   * a deeper one, from an earlier positive level under the peak.
   */
  lemma OnePassExactly(curve: seq<real>)
    requires curve != [] && curve[0] > 0.0
    ensures DeepestFall(curve, OnePass(curve)) <==> NoHiddenFall(curve, OnePass(curve))
    ensures NeverNegative(curve) ==> DeepestFall(curve, OnePass(curve)) && OnePass(curve) <= 1.0
  {
    hide Fall, Worst, OnePass;
    DeepestFallIs(curve, OnePass(curve));
    WorstSplits(curve, OnePass(curve));
    if NeverNegative(curve) {
      var d := OnePass(curve);
      assert NoHiddenFall(curve, d);
      var j, k :| 0 <= j <= k < |curve| && curve[j] > 0.0 && d == Fall(curve[j], curve[k]);
      FallOrder(curve[j], curve[j], curve[k]);
    }
  }

  lemma BelowZeroFallsMore(high: real, low: real)
    requires high > 0.0 && low < 0.0
    ensures Fall(high, low) > 1.0
  {
    FallIs(high, low);
    QuotientSign(-low, high);
    assert low / high == -((-low) / high);
  }

  /** The first level below zero hides the fall from every positive level but the peak. */
  lemma HiddenFall(curve: seq<real>, j: nat, k: nat)
    requires |curve| > 1 && curve[0] > 0.0
    requires NeverNegative(curve[..|curve| - 1]) && curve[|curve| - 1] < 0.0
    requires j < |curve| && k < |curve| && curve[j] > 0.0 && curve[k] > 0.0 && curve[j] != curve[k]
    ensures !DeepestFall(curve, OnePass(curve))
  {
    hide Fall;
    var n, peak := |curve| - 1, MaxOf(curve);
    var low := if curve[j] < curve[k] then j else k;
    assert curve[low] in curve && curve[j] in curve && curve[k] in curve;
    OnePassExactly(curve[..n]);
    BelowZeroFallsMore(peak, curve[n]);
    FallOrder(curve[low], peak, curve[n]);
    assert OnePass(curve) < Fall(curve[low], curve[n]);
  }
}
