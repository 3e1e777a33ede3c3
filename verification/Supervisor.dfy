/**
 * The supervisor: a loss counter that shrinks the stake, and a gate that blocks
 * strategies which recently lost money in a market regime.
 */
module Supervisor {
  import opened Common

  datatype ClosedTrade = ClosedTrade(closedAt: int, pnl: real, strategies: seq<string>, regime: Option<string>)

  /** 45 days, in seconds. */
  const LOOKBACK := 3888000
  const MIN_TRADES_TO_BLOCK := 4

  type Combo = (string, string)

  predicate Kept(t: ClosedTrade, now: int) {
    now - t.closedAt <= LOOKBACK
  }

  function Filter(trades: seq<ClosedTrade>, now: int): seq<ClosedTrade> {
    if trades == [] then []
    else
      var n := |trades| - 1;
      Filter(trades[..n], now) + (if Kept(trades[n], now) then [trades[n]] else [])
  }

  /** Inserts after every trade that closed no later: the step of a stable sort. */
  function Insert(sorted: seq<ClosedTrade>, t: ClosedTrade): seq<ClosedTrade> {
    if sorted == [] then [t]
    else
      var n := |sorted| - 1;
      if sorted[n].closedAt <= t.closedAt then sorted + [t] else Insert(sorted[..n], t) + [sorted[n]]
  }

  function Sort(trades: seq<ClosedTrade>): seq<ClosedTrade> {
    if trades == [] then [] else Insert(Sort(trades[..|trades| - 1]), trades[|trades| - 1])
  }

  /** The trades inside the lookback, oldest first. */
  function Recent(trades: seq<ClosedTrade>, now: int): seq<ClosedTrade> {
    Sort(Filter(trades, now))
  }

  function Counted(count: nat, t: ClosedTrade): nat {
    if t.pnl <= 0.0 then count + 1 else if count == 0 then 0 else count - 1
  }

  function CountFrom(count: nat, trades: seq<ClosedTrade>): nat
    decreases trades
  {
    if trades == [] then count else CountFrom(Counted(count, trades[0]), trades[1..])
  }

  function LossCount(trades: seq<ClosedTrade>): nat {
    CountFrom(0, trades)
  }

  function RiskFor(lossCount: nat): real {
    if lossCount <= 1 then 1.0 else if lossCount == 2 then 0.75 else if lossCount == 3 then 0.5 else 0.25
  }

  /** A trade counts once per entry of its strategy list. */
  function PnlsIn(t: ClosedTrade, upTo: nat, combo: Combo): seq<real>
    requires upTo <= |t.strategies|
  {
    if upTo == 0 then []
    else
      PnlsIn(t, upTo - 1, combo)
        + (if t.regime == Some(combo.1) && t.strategies[upTo - 1] == combo.0 then [t.pnl] else [])
  }

  function Pnls(trades: seq<ClosedTrade>, combo: Combo): seq<real> {
    if trades == [] then []
    else
      var n := |trades| - 1;
      Pnls(trades[..n], combo) + PnlsIn(trades[n], |trades[n].strategies|, combo)
  }

  predicate Blocks(trades: seq<ClosedTrade>, combo: Combo) {
    |Pnls(trades, combo)| >= MIN_TRADES_TO_BLOCK && Sum(Pnls(trades, combo)) < 0.0
  }

  function Collected(totals: map<Combo, seq<real>>, combo: Combo): seq<real> {
    if combo in totals then totals[combo] else []
  }

  lemma {:induction false} NoRegimeNoPnls(t: ClosedTrade, upTo: nat, combo: Combo)
    requires upTo <= |t.strategies| && t.regime.None?
    ensures PnlsIn(t, upTo, combo) == []
  {
    if upTo > 0 {
      NoRegimeNoPnls(t, upTo - 1, combo);
    }
  }

  lemma CountOneMore(trades: seq<ClosedTrade>, t: ClosedTrade)
    ensures LossCount(trades + [t]) == Counted(LossCount(trades), t)
  {
    CountSplits(0, trades, [t]);
    assert [t][1..] == [];
  }

  /** The loss counter: up on a loss, down on a win, never below zero. */
  method CountLosses(recent: seq<ClosedTrade>) returns (lossCount: nat)
    ensures lossCount == LossCount(recent)
  {
    hide LossCount;
    CountNone();
    lossCount := 0;
    assert recent[..0] == [];
    for i := 0 to |recent|
      invariant lossCount == LossCount(recent[..i])
    {
      assert recent[..i + 1] == recent[..i] + [recent[i]];
      CountOneMore(recent[..i], recent[i]);
      lossCount := if recent[i].pnl <= 0.0 then lossCount + 1 else if lossCount == 0 then 0 else lossCount - 1;
    }
    assert recent[..|recent|] == recent;
  }

  lemma CountNone()
    ensures LossCount([]) == 0
  {
  }

  ghost predicate CollectedSoFar(totals: map<Combo, seq<real>>, done: seq<ClosedTrade>, t: ClosedTrade, upTo: nat)
    requires upTo <= |t.strategies|
  {
    forall combo :: Collected(totals, combo) == Pnls(done, combo) + PnlsIn(t, upTo, combo)
  }

  lemma CollectOne(totals: map<Combo, seq<real>>, done: seq<ClosedTrade>, t: ClosedTrade, j: nat)
    requires j < |t.strategies| && t.regime.Some? && CollectedSoFar(totals, done, t, j)
    ensures var combo := (t.strategies[j], t.regime.value);
      CollectedSoFar(totals[combo := Collected(totals, combo) + [t.pnl]], done, t, j + 1)
  {
    var combo := (t.strategies[j], t.regime.value);
    var next := totals[combo := Collected(totals, combo) + [t.pnl]];
    forall c
      ensures Collected(next, c) == Pnls(done, c) + PnlsIn(t, j + 1, c)
    {
      var before := PnlsIn(t, j, c);
      if c == combo {
        assert Pnls(done, c) + before + [t.pnl] == Pnls(done, c) + (before + [t.pnl]);
      } else {
        assert before + [] == before;
      }
    }
  }

  lemma CollectNone(totals: map<Combo, seq<real>>, done: seq<ClosedTrade>, t: ClosedTrade)
    requires forall combo :: Collected(totals, combo) == Pnls(done, combo)
    ensures CollectedSoFar(totals, done, t, 0)
    ensures t.regime.None? ==> CollectedSoFar(totals, done, t, |t.strategies|)
  {
    forall combo
      ensures t.regime.None? ==> PnlsIn(t, |t.strategies|, combo) == []
    {
      if t.regime.None? {
        NoRegimeNoPnls(t, |t.strategies|, combo);
      }
    }
  }

  lemma CollectDone(totals: map<Combo, seq<real>>, done: seq<ClosedTrade>, t: ClosedTrade)
    requires CollectedSoFar(totals, done, t, |t.strategies|)
    ensures forall combo :: Collected(totals, combo) == Pnls(done + [t], combo)
  {
  }

  /** The results of every strategy in every regime. */
  method CollectTotals(recent: seq<ClosedTrade>) returns (totals: map<Combo, seq<real>>)
    ensures forall combo :: Collected(totals, combo) == Pnls(recent, combo)
  {
    hide Collected, Pnls, PnlsIn;
    totals := map[];
    NothingCollected();
    assert recent[..0] == [];
    for i := 0 to |recent|
      invariant forall combo :: Collected(totals, combo) == Pnls(recent[..i], combo)
    {
      var trade := recent[i];
      assert recent[..i + 1] == recent[..i] + [trade];
      CollectNone(totals, recent[..i], trade);
      if trade.regime.Some? {
        for j := 0 to |trade.strategies|
          invariant CollectedSoFar(totals, recent[..i], trade, j)
        {
          CollectOne(totals, recent[..i], trade, j);
          var combo := (trade.strategies[j], trade.regime.value);
          totals := totals[combo := Collected(totals, combo) + [trade.pnl]];
        }
      }
      CollectDone(totals, recent[..i], trade);
    }
    assert recent[..|recent|] == recent;
  }

  lemma NothingCollected()
    ensures forall combo :: Collected(map[], combo) == Pnls([], combo)
  {
  }

  method EvaluateSupervisor(trades: seq<ClosedTrade>, now: int) returns (riskMultiplier: real, blocked: set<Combo>)
    ensures riskMultiplier == RiskFor(LossCount(Recent(trades, now)))
    ensures forall combo :: combo in blocked <==> Blocks(Recent(trades, now), combo)
    ensures forall combo :: combo in blocked <==> LosesMoney(Recent(trades, now), combo)
  {
    hide LossCount, Recent, Pnls;
    var recent := Recent(trades, now);
    var lossCount := CountLosses(recent);
    var totals := CollectTotals(recent);
    riskMultiplier := RiskFor(lossCount);
    blocked := set combo | combo in totals && |totals[combo]| >= MIN_TRADES_TO_BLOCK && Sum(totals[combo]) < 0.0;
    forall combo
      ensures combo in blocked <==> Blocks(recent, combo)
      ensures Blocks(recent, combo) <==> LosesMoney(recent, combo)
    {
      assert Collected(totals, combo) == Pnls(recent, combo);
      BlocksExactly(recent, combo);
    }
  }

  // ----- which trades count, and what is blocked -----

  /** How often a strategy is named by a trade in a regime. */
  function Named(t: ClosedTrade, combo: Combo): nat {
    if t.regime == Some(combo.1) then multiset(t.strategies)[combo.0] else 0
  }

  /** Of each trade, how often it counts for a strategy in a regime. */
  function Counts(trades: seq<ClosedTrade>, combo: Combo): (r: seq<real>)
    ensures |r| == |trades|
  {
    seq(|trades|, i requires 0 <= i < |trades| => Named(trades[i], combo) as real)
  }

  function ResultOf(t: ClosedTrade, combo: Combo): real {
    Times(Named(t, combo) as real, t.pnl)
  }

  /** And with what result. */
  function Results(trades: seq<ClosedTrade>, combo: Combo): (r: seq<real>)
    ensures |r| == |trades|
  {
    seq(|trades|, i requires 0 <= i < |trades| => ResultOf(trades[i], combo))
  }

  /** At least four results, and less than nothing in all. */
  predicate LosesMoney(trades: seq<ClosedTrade>, combo: Combo) {
    Sum(Counts(trades, combo)) >= 4.0 && Sum(Results(trades, combo)) < 0.0
  }

  lemma SumOne(x: real)
    ensures Sum([x]) == x
  {
    assert [x][1..] == [];
  }

  lemma OneMoreResult(n: nat, x: real)
    ensures Times((n + 1) as real, x) == Times(n as real, x) + x
  {
    var k := n as real;
    assert (n + 1) as real == k + 1.0;
    assert (k + 1.0) * x == k * x + x;
  }

  lemma NoResult(x: real)
    ensures Times(0.0, x) == 0.0
  {
  }

  /** The results of a trade among its first `upTo` strategies: as many as it names the strategy, each its profit. */
  lemma {:induction false} PnlsInExactly(t: ClosedTrade, upTo: nat, combo: Combo, n: nat)
    requires upTo <= |t.strategies|
    requires n == if t.regime == Some(combo.1) then multiset(t.strategies[..upTo])[combo.0] else 0
    ensures |PnlsIn(t, upTo, combo)| == n && Sum(PnlsIn(t, upTo, combo)) == Times(n as real, t.pnl)
  {
    hide Times;
    if upTo == 0 {
      NoResult(t.pnl);
    } else {
      hide Sum;
      var k := upTo - 1;
      assert t.strategies[..upTo] == t.strategies[..k] + [t.strategies[k]];
      if t.regime == Some(combo.1) && t.strategies[k] == combo.0 {
        PnlsInExactly(t, k, combo, n - 1);
        SumConcat(PnlsIn(t, k, combo), [t.pnl]);
        SumOne(t.pnl);
        OneMoreResult(n - 1, t.pnl);
      } else {
        PnlsInExactly(t, k, combo, n);
        assert PnlsIn(t, k, combo) + [] == PnlsIn(t, k, combo);
      }
    }
  }

  lemma PnlsOfTrade(t: ClosedTrade, combo: Combo)
    ensures |PnlsIn(t, |t.strategies|, combo)| as real == Named(t, combo) as real
    ensures Sum(PnlsIn(t, |t.strategies|, combo)) == ResultOf(t, combo)
  {
    hide Times, Sum, PnlsIn;
    assert t.strategies[..|t.strategies|] == t.strategies;
    PnlsInExactly(t, |t.strategies|, combo, Named(t, combo));
  }

  lemma AppendsOne(trades: seq<ClosedTrade>, combo: Combo)
    requires trades != []
    ensures var n := |trades| - 1;
      && Counts(trades, combo) == Counts(trades[..n], combo) + [Named(trades[n], combo) as real]
      && Results(trades, combo) == Results(trades[..n], combo) + [ResultOf(trades[n], combo)]
      && Pnls(trades, combo) == Pnls(trades[..n], combo) + PnlsIn(trades[n], |trades[n].strategies|, combo)
  {
    hide Named, ResultOf, PnlsIn;
  }

  lemma LengthAdds(a: seq<real>, b: seq<real>)
    ensures |a + b| as real == |a| as real + |b| as real
  {
  }

  lemma {:induction false} CountExactly(trades: seq<ClosedTrade>, combo: Combo)
    ensures |Pnls(trades, combo)| as real == Sum(Counts(trades, combo))
  {
    if trades == [] {
      assert Counts(trades, combo) == [];
    } else {
      hide *;
      var n := |trades| - 1;
      var count := Named(trades[n], combo) as real;
      CountExactly(trades[..n], combo);
      PnlsOfTrade(trades[n], combo);
      AppendsOne(trades, combo);
      LengthAdds(Pnls(trades[..n], combo), PnlsIn(trades[n], |trades[n].strategies|, combo));
      SumConcat(Counts(trades[..n], combo), [count]);
      SumOne(count);
    }
  }

  lemma {:induction false} ResultExactly(trades: seq<ClosedTrade>, combo: Combo)
    ensures Sum(Pnls(trades, combo)) == Sum(Results(trades, combo))
  {
    if trades == [] {
      assert Results(trades, combo) == [];
    } else {
      hide *;
      var n := |trades| - 1;
      var result := ResultOf(trades[n], combo);
      ResultExactly(trades[..n], combo);
      PnlsOfTrade(trades[n], combo);
      AppendsOne(trades, combo);
      SumConcat(Pnls(trades[..n], combo), PnlsIn(trades[n], |trades[n].strategies|, combo));
      SumConcat(Results(trades[..n], combo), [result]);
      SumOne(result);
    }
  }

  /** A strategy is blocked in a regime exactly when it lost money there over at least four results. */
  lemma BlocksExactly(trades: seq<ClosedTrade>, combo: Combo)
    ensures Blocks(trades, combo) <==> LosesMoney(trades, combo)
  {
    hide Sum, Counts, Results, Pnls;
    CountExactly(trades, combo);
    ResultExactly(trades, combo);
  }

  lemma {:induction false} FilterExactly(trades: seq<ClosedTrade>, now: int, t: ClosedTrade)
    ensures multiset(Filter(trades, now))[t] == if now - t.closedAt <= 3888000 then multiset(trades)[t] else 0
  {
    if trades != [] {
      var n := |trades| - 1;
      FilterExactly(trades[..n], now, t);
      assert trades == trades[..n] + [trades[n]];
      assert multiset(trades) == multiset(trades[..n]) + multiset{trades[n]};
    }
  }

  /** The trades that count are those of the last 45 days, every one of them, oldest first. */
  lemma RecentExactly(trades: seq<ClosedTrade>, now: int, t: ClosedTrade)
    ensures Sorted(Recent(trades, now))
    ensures multiset(Recent(trades, now))[t] == if now - t.closedAt <= 3888000 then multiset(trades)[t] else 0
  {
    SortSorts(Filter(trades, now));
    FilterExactly(trades, now, t);
  }

  /** The part of the stake that each count leaves. */
  lemma RiskExactly(lossCount: nat)
    ensures RiskFor(lossCount) == match lossCount
                                  case 0 => 1.0 case 1 => 1.0 case 2 => 0.75 case 3 => 0.5 case _ => 0.25
  {
  }

  // ----- the counter is a maximum over suffixes -----

  /** Losses minus wins. */
  function Net(trades: seq<ClosedTrade>): int {
    if trades == [] then 0 else (if trades[0].pnl <= 0.0 then 1 else -1) + Net(trades[1..])
  }

  lemma {:induction false} CountSplits(count: nat, a: seq<ClosedTrade>, b: seq<ClosedTrade>)
    ensures CountFrom(count, a + b) == CountFrom(CountFrom(count, a), b)
    decreases a
  {
    if a == [] {
      assert a + b == b;
    } else {
      assert (a + b)[1..] == a[1..] + b;
      CountSplits(Counted(count, a[0]), a[1..], b);
    }
  }

  /** From any count: the larger of count plus the whole balance, and the best suffix balance. */
  lemma {:induction false} CountIsMaximum(count: nat, trades: seq<ClosedTrade>)
    ensures count + Net(trades) <= CountFrom(count, trades)
    ensures forall i | 0 <= i <= |trades| :: Net(trades[i..]) <= CountFrom(count, trades)
    ensures CountFrom(count, trades) == count + Net(trades)
         || exists i | 0 <= i <= |trades| :: Net(trades[i..]) == CountFrom(count, trades)
    decreases trades
  {
    if trades == [] {
      assert forall i | 0 <= i <= 0 :: trades[i..] == [];
    } else {
      var rest, next := trades[1..], Counted(count, trades[0]);
      CountIsMaximum(next, rest);
      assert forall i | 1 <= i <= |trades| :: trades[i..] == rest[i - 1..];
      assert trades[0..] == trades;
      if CountFrom(next, rest) != next + Net(rest) {
        var i :| 0 <= i <= |rest| && Net(rest[i..]) == CountFrom(next, rest);
        assert trades[i + 1..] == rest[i..];
      } else if next == 0 {
        assert trades[1..] == rest;
      }
      forall i | 0 <= i <= |trades|
        ensures Net(trades[i..]) <= CountFrom(count, trades)
      {
        if i > 0 {
          assert trades[i..] == rest[i - 1..];
        }
      }
    }
  }

  /** The loss counter is the largest losses-minus-wins balance over all suffixes of the recent trades. */
  lemma LossCountIsMaximum(trades: seq<ClosedTrade>)
    ensures forall i | 0 <= i <= |trades| :: Net(trades[i..]) <= LossCount(trades)
    ensures exists i | 0 <= i <= |trades| :: Net(trades[i..]) == LossCount(trades)
  {
    CountIsMaximum(0, trades);
    assert trades[0..] == trades;
  }

  // ----- one more trade -----

  /** Counters never drift apart, and never cross. */
  lemma {:induction false} CountsStayClose(low: nat, high: nat, trades: seq<ClosedTrade>)
    requires low <= high
    ensures CountFrom(low, trades) <= CountFrom(high, trades) <= CountFrom(low, trades) + (high - low)
    decreases trades
  {
    if trades != [] {
      CountsStayClose(Counted(low, trades[0]), Counted(high, trades[0]), trades[1..]);
    }
  }

  lemma {:induction false} InsertPlaces(sorted: seq<ClosedTrade>, t: ClosedTrade) returns (i: nat)
    ensures i <= |sorted| && Insert(sorted, t) == sorted[..i] + [t] + sorted[i..]
    ensures i > 0 ==> sorted[i - 1].closedAt <= t.closedAt
    ensures forall k | i <= k < |sorted| :: t.closedAt < sorted[k].closedAt
  {
    if sorted == [] {
      i := 0;
    } else {
      var n := |sorted| - 1;
      if sorted[n].closedAt <= t.closedAt {
        i := |sorted|;
      } else {
        i := InsertPlaces(sorted[..n], t);
        assert sorted[..n][i..] + [sorted[n]] == sorted[i..];
        assert sorted[..n][..i] == sorted[..i];
      }
    }
  }

  /** One more trade, whenever it closed, moves the counter by at most one. */
  lemma OneMoreTrade(trades: seq<ClosedTrade>, t: ClosedTrade, now: int)
    ensures -1 <= LossCount(Recent(trades + [t], now)) - LossCount(Recent(trades, now)) <= 1
  {
    assert (trades + [t])[..|trades|] == trades;
    var kept := Filter(trades, now);
    hide Insert, CountFrom;
    if Kept(t, now) {
      var sorted := Sort(kept);
      assert (kept + [t])[..|kept|] == kept;
      var i := InsertPlaces(sorted, t);
      OneMorePlaced(sorted[..i], sorted[i..], t);
      assert sorted[..i] + sorted[i..] == sorted;
    } else {
      assert kept + [] == kept;
    }
  }

  lemma OneMorePlaced(a: seq<ClosedTrade>, b: seq<ClosedTrade>, t: ClosedTrade)
    ensures -1 <= LossCount(a + [t] + b) - LossCount(a + b) <= 1
  {
    CountSplits(0, a, b);
    CountSplits(0, a + [t], b);
    CountOneMore(a, t);
    hide CountFrom;
    var before, after := CountFrom(0, a), CountFrom(0, a + [t]);
    if before <= after {
      CountsStayClose(before, after, b);
    } else {
      CountsStayClose(after, before, b);
    }
  }

  // ----- the passage of time -----

  ghost predicate Sorted(trades: seq<ClosedTrade>) {
    forall i, j | 0 <= i < j < |trades| :: trades[i].closedAt <= trades[j].closedAt
  }

  lemma InsertSorts(sorted: seq<ClosedTrade>, t: ClosedTrade)
    requires Sorted(sorted)
    ensures Sorted(Insert(sorted, t))
    ensures multiset(Insert(sorted, t)) == multiset(sorted) + multiset{t}
  {
    hide Insert, Sorted;
    var i := InsertPlaces(sorted, t);
    PlacedSorted(sorted, t, i);
    assert sorted == sorted[..i] + sorted[i..];
  }

  lemma PlacedSorted(sorted: seq<ClosedTrade>, t: ClosedTrade, i: nat)
    requires Sorted(sorted) && i <= |sorted|
    requires i > 0 ==> sorted[i - 1].closedAt <= t.closedAt
    requires forall k | i <= k < |sorted| :: t.closedAt < sorted[k].closedAt
    ensures Sorted(sorted[..i] + [t] + sorted[i..])
  {
  }

  /** The stable sort orders the trades and keeps them all. */
  lemma {:induction false} SortSorts(trades: seq<ClosedTrade>)
    ensures Sorted(Sort(trades)) && multiset(Sort(trades)) == multiset(trades)
  {
    hide Insert, Sorted;
    if trades != [] {
      var n := |trades| - 1;
      SortSorts(trades[..n]);
      InsertSorts(Sort(trades[..n]), trades[n]);
      assert trades == trades[..n] + [trades[n]];
    } else {
      NoneSorted();
    }
  }

  lemma NoneSorted()
    ensures Sorted([])
  {
  }

  lemma FilterAppend(trades: seq<ClosedTrade>, t: ClosedTrade, now: int)
    ensures Filter(trades + [t], now) == Filter(trades, now) + (if Kept(t, now) then [t] else [])
  {
  }

  lemma {:induction false} FilterOldEmpty(trades: seq<ClosedTrade>, now: int)
    requires forall i | 0 <= i < |trades| :: !Kept(trades[i], now)
    ensures Filter(trades, now) == []
  {
    if trades != [] {
      FilterOldEmpty(trades[..|trades| - 1], now);
    }
  }

  /** Ageing out and sorting commute. */
  lemma {:induction false} FilterInsert(sorted: seq<ClosedTrade>, t: ClosedTrade, now: int)
    requires Sorted(sorted)
    ensures Filter(Insert(sorted, t), now)
         == if Kept(t, now) then Insert(Filter(sorted, now), t) else Filter(sorted, now)
  {
    if sorted == [] {
      FilterAppend([], t, now);
      assert [] + [t] == [t];
    } else {
      var n := |sorted| - 1;
      var init, last := sorted[..n], sorted[n];
      assert sorted == init + [last];
      FilterAppend(init, last, now);
      if last.closedAt <= t.closedAt {
        FilterAppend(sorted, t, now);
        if !Kept(last, now) && Kept(t, now) {
          FilterOldEmpty(sorted, now);
          assert [] + [t] == [t];
        }
      } else {
        FilterInsert(init, t, now);
        FilterAppend(Insert(init, t), last, now);
        if Kept(t, now) {
          var kept := Filter(init, now);
          assert (kept + [last])[..|kept|] == kept;
        }
      }
    }
  }

  lemma {:induction false} FilterSort(trades: seq<ClosedTrade>, now: int)
    ensures Filter(Sort(trades), now) == Sort(Filter(trades, now))
  {
    if trades != [] {
      var n := |trades| - 1;
      FilterSort(trades[..n], now);
      SortSorts(trades[..n]);
      FilterInsert(Sort(trades[..n]), trades[n], now);
      var kept := Filter(trades[..n], now);
      assert (kept + [trades[n]])[..|kept|] == kept;
      assert kept + [] == kept;
    }
  }

  /** If the last of sorted trades is too old, all are. */
  lemma LastOldAllOld(sorted: seq<ClosedTrade>, now: int)
    requires Sorted(sorted) && sorted != [] && !Kept(sorted[|sorted| - 1], now)
    ensures forall i | 0 <= i < |sorted| :: !Kept(sorted[i], now)
  {
    assert forall i | 0 <= i < |sorted| - 1 :: sorted[i].closedAt <= sorted[|sorted| - 1].closedAt;
  }

  lemma SortedPrefix(sorted: seq<ClosedTrade>, n: nat)
    requires Sorted(sorted) && n <= |sorted|
    ensures Sorted(sorted[..n])
  {
  }

  /** On sorted trades, ageing out drops a prefix. */
  lemma {:induction false} FilterIsSuffix(sorted: seq<ClosedTrade>, now: int) returns (i: nat)
    requires Sorted(sorted)
    ensures i <= |sorted| && Filter(sorted, now) == sorted[i..]
  {
    hide Sorted, Kept;
    if sorted == [] {
      i := 0;
    } else {
      var n := |sorted| - 1;
      if Kept(sorted[n], now) {
        SortedPrefix(sorted, n);
        i := FilterIsSuffix(sorted[..n], now);
        assert sorted[..n][i..] + [sorted[n]] == sorted[i..];
      } else {
        LastOldAllOld(sorted, now);
        FilterOldEmpty(sorted, now);
        i := |sorted|;
      }
    }
  }

  lemma {:induction false} FilterTwice(trades: seq<ClosedTrade>, now: int, later: int)
    requires now <= later
    ensures Filter(Filter(trades, now), later) == Filter(trades, later)
  {
    if trades != [] {
      var n := |trades| - 1;
      FilterTwice(trades[..n], now, later);
      if Kept(trades[n], now) {
        FilterAppend(Filter(trades[..n], now), trades[n], later);
      } else {
        assert Filter(trades[..n], now) + [] == Filter(trades[..n], now);
      }
    }
  }

  /** With no new trades, time never raises the loss counter, so it never lowers the stake. */
  lemma TimeNeverLowersRisk(trades: seq<ClosedTrade>, now: int, later: int)
    requires now <= later
    ensures LossCount(Recent(trades, later)) <= LossCount(Recent(trades, now))
    ensures RiskFor(LossCount(Recent(trades, now))) <= RiskFor(LossCount(Recent(trades, later)))
  {
    hide Filter, Sort, Sorted, CountFrom, RiskFor;
    var recent := Recent(trades, now);
    FilterTwice(trades, now, later);
    FilterSort(Filter(trades, now), later);
    SortSorts(Filter(trades, now));
    assert Recent(trades, later) == Filter(recent, later);
    var i := FilterIsSuffix(recent, later);
    assert recent == recent[..i] + recent[i..];
    CountSplits(0, recent[..i], recent[i..]);
    CountsStayClose(0, CountFrom(0, recent[..i]), recent[i..]);
    MoreLossesLessRisk(LossCount(Recent(trades, later)), LossCount(recent));
  }

  /** The supervisor only ever lowers the stake, and never to nothing. */
  lemma RiskIsFraction(lossCount: nat)
    ensures 0.0 < RiskFor(lossCount) <= 1.0
  {
  }

  lemma MoreLossesLessRisk(few: nat, many: nat)
    requires few <= many
    ensures RiskFor(many) <= RiskFor(few)
  {
  }

  /** Once every trade is older than the lookback, the stake is full and nothing is blocked. */
  lemma EverythingExpires(trades: seq<ClosedTrade>, now: int)
    requires forall i | 0 <= i < |trades| :: now > trades[i].closedAt + LOOKBACK
    ensures RiskFor(LossCount(Recent(trades, now))) == 1.0
    ensures forall combo :: !Blocks(Recent(trades, now), combo)
  {
    FilterOldEmpty(trades, now);
  }
}
