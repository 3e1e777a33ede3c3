/**
 * A tick that breaches an account-wide limit: trading stops, and for the
 * balance floor and the drawdown every open position is sold.
 */
module CircuitBreaker {
  import opened Common
  import opened RiskEngine
  import opened AgentTick

  ghost predicate DistinctSymbols(open: seq<Holding>) {
    forall i, j | 0 <= i < j < |open| :: open[i].symbol != open[j].symbol
  }

  /** Flattening attempts a sell of this position. */
  predicate Attempted(h: Holding, inFlight: set<Pair>) {
    h.quantity > 0.0 && h.symbol !in inFlight
  }

  /** The positions whose symbol is not in `gone`, in order. */
  function Excluding(open: seq<Holding>, gone: set<Pair>): seq<Holding> {
    if open == [] then []
    else
      var n := |open| - 1;
      Excluding(open[..n], gone) + (if open[n].symbol in gone then [] else [open[n]])
  }

  lemma {:induction false} ExcludingMember(open: seq<Holding>, gone: set<Pair>, h: Holding)
    ensures h in Excluding(open, gone) <==> h in open && h.symbol !in gone
  {
    if open != [] {
      var n := |open| - 1;
      ExcludingMember(open[..n], gone, h);
      assert open == open[..n] + [open[n]];
    }
  }

  /** The symbols a flatten sells. */
  function ClosedBy(open: seq<Holding>, inFlight: set<Pair>, failing: set<Pair>): set<Pair> {
    if open == [] then {}
    else
      var n := |open| - 1;
      ClosedBy(open[..n], inFlight, failing)
        + (if Attempted(open[n], inFlight) && open[n].symbol !in failing then {open[n].symbol} else {})
  }

  /** The symbols it tries and fails to sell. */
  function FailedIn(open: seq<Holding>, inFlight: set<Pair>, failing: set<Pair>): set<Pair> {
    if open == [] then {}
    else
      var n := |open| - 1;
      FailedIn(open[..n], inFlight, failing)
        + (if Attempted(open[n], inFlight) && open[n].symbol in failing then {open[n].symbol} else {})
  }

  lemma {:induction false} ClosedExactly(open: seq<Holding>, inFlight: set<Pair>, failing: set<Pair>, s: Pair)
    ensures s in ClosedBy(open, inFlight, failing)
      <==> s !in failing && exists i | 0 <= i < |open| :: open[i].symbol == s && Attempted(open[i], inFlight)
  {
    if open != [] {
      var n := |open| - 1;
      ClosedExactly(open[..n], inFlight, failing, s);
      assert forall i | 0 <= i < n :: open[..n][i] == open[i];
    }
  }

  lemma {:induction false} ExcludingNone(open: seq<Holding>)
    ensures Excluding(open, {}) == open
  {
    if open != [] {
      ExcludingNone(open[..|open| - 1]);
    }
  }

  /** Popping one more symbol. */
  lemma {:induction false} RemoveExcluded(open: seq<Holding>, gone: set<Pair>, symbol: Pair)
    ensures Remove(Excluding(open, gone), symbol) == Excluding(open, gone + {symbol})
  {
    if open != [] {
      var n := |open| - 1;
      RemoveExcluded(open[..n], gone, symbol);
      var before := Excluding(open[..n], gone);
      if open[n].symbol in gone {
        assert before + [] == before;
      } else {
        assert (before + [open[n]])[..|before|] == before;
      }
    }
  }

  /**
   * Sells every open position, one attempt each; `failing` are the symbols
   * whose order the exchange refuses. A failure is noted and the loop goes on.
   */
  method FlattenAllPositions(state: PortfolioState, inFlight: set<Pair>, failing: set<Pair>, at: int)
    returns (closed: set<Pair>, failed: set<Pair>)
    modifies state
    ensures state.openPositions == Excluding(old(state.openPositions), closed)
    ensures closed == ClosedBy(old(state.openPositions), inFlight, failing)
    ensures failed == FailedIn(old(state.openPositions), inFlight, failing)
    ensures state.cash == old(state.cash) && state.tradesThisHour == old(state.tradesThisHour)
    ensures state.lastEntryTime == old(state.lastEntryTime) && state.equity == old(state.equity)
  {
    var snapshot := state.openPositions;
    closed, failed := {}, {};
    ExcludingNone(snapshot);
    for i := 0 to |snapshot|
      invariant state.openPositions == Excluding(snapshot, closed)
      invariant closed == ClosedBy(snapshot[..i], inFlight, failing)
      invariant failed == FailedIn(snapshot[..i], inFlight, failing)
      invariant state.cash == old(state.cash) && state.tradesThisHour == old(state.tradesThisHour)
      invariant state.lastEntryTime == old(state.lastEntryTime) && state.equity == old(state.equity)
    {
      var h := snapshot[i];
      assert snapshot[..i + 1][..i] == snapshot[..i];
      if h.quantity <= 0.0 || h.symbol in inFlight {
        continue;
      }
      if h.symbol in failing {
        failed := failed + {h.symbol};
      } else {
        RemoveExcluded(snapshot, closed, h.symbol);
        state.ReleasePosition(h.symbol, at);
        closed := closed + {h.symbol};
      }
    }
    assert snapshot[..|snapshot|] == snapshot;
  }

  /** A position is left open exactly when it had nothing to sell, a sell in flight, or a failed close. */
  lemma LeftOpenExactly(open: seq<Holding>, inFlight: set<Pair>, failing: set<Pair>, h: Holding)
    requires DistinctSymbols(open) && h in open
    ensures h in Excluding(open, ClosedBy(open, inFlight, failing))
      <==> h.quantity <= 0.0 || h.symbol in inFlight || h.symbol in failing
  {
    ExcludingMember(open, ClosedBy(open, inFlight, failing), h);
    ClosedExactly(open, inFlight, failing, h.symbol);
    var j :| 0 <= j < |open| && open[j] == h;
    assert forall i | 0 <= i < |open| && open[i].symbol == h.symbol :: i == j;
  }

  datatype TickResult =
    | Traded(outcomes: seq<Outcome>)
    | Halted(limit: Limit, haltNoted: bool, closed: set<Pair>, failed: set<Pair>)

  /**
   * A whole tick: the account-wide limits first, then either the symbols or the flatten. AI trading being off does
   * not matter to the flatten.
   */
  method RunTick(state: PortfolioState, c: AgentConfig, work: seq<(Pair, Reading)>,
                 inFlight: set<Pair>, failing: set<Pair>, at: int) returns (result: TickResult)
    modifies state
    ensures var p := old(state.View());
      match Breach(p, c.limits)
      case None =>
        result == Traded(Outcomes(p, c, work)) && state.View() == After(p, c, work)
      case Some(limit) =>
        && result.Halted? && result.limit == limit && (result.haltNoted <==> limit.MaxDrawdown?)
        && (ShouldFlatten(limit) ==>
              && result.closed == ClosedBy(p.open, inFlight, failing)
              && result.failed == FailedIn(p.open, inFlight, failing)
              && state.openPositions == Excluding(p.open, result.closed))
        && (!ShouldFlatten(limit) ==> state.View() == p && result.closed == {})
        && state.tradesThisHour == p.tradesThisHour && state.lastEntryTime == p.lastEntryTime
    ensures var p := old(state.View());
      (result.Halted? && ShouldFlatten(result.limit))
      <==> ((c.limits.floor.Some? && p.equity <= c.limits.floor.value)
            || DrawdownOf(p.equity, p.peakEquity) >= c.limits.maxDrawdown)
  {
    FlattenWins(state.View(), c.limits);
    hide OutcomeFor, AfterOutcome, DrawdownOf, DailyLossOf;
    var breach := Breach(state.View(), c.limits);
    if breach.Some? {
      var closed: set<Pair>, failed: set<Pair> := {}, {};
      if ShouldFlatten(breach.value) {
        closed, failed := FlattenAllPositions(state, inFlight, failing, at);
      }
      return Halted(breach.value, breach.value.MaxDrawdown?, closed, failed);
    }
    var outcomes := RunSymbols(state, c, work);
    return Traded(outcomes);
  }
}
