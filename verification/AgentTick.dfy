/**
 * One pass of the agent over its symbols: every symbol is judged against the
 * one mutable portfolio state, entries reserve room in it and closes release it.
 */
module AgentTick {
  import opened Common
  import opened RiskEngine
  import opened PositionSizing
  import Supervisor

  datatype AgentConfig = AgentConfig(
    limits: AccountLimits, rules: TradeRules, maxTradeRisk: real, riskMultiplier: real, stopAtrMultiple: real,
    oneTradePerCandle: bool, exitEma: bool, phoneMode: bool, dryRun: bool)

  datatype Signal = NoSignal | Long | Short

  /**
   * Everything one symbol's analysis reads from outside the portfolio state:
   * the strategies' verdict, prices, filters, orders in flight and clock values
   * are arbitrary inputs. `placed` tells whether the exchange took the order
   * and its result was stored.
   */
  datatype Analysis = Analysis(
    signal: Signal, confidence: real, price: real, atr: real, lastClosedAt: int, aboveExitEma: bool,
    entryFilters: bool, buyInFlight: bool, sellInFlight: bool, correlated: seq<(Pair, real)>,
    checkedAt: int, placed: bool, recordedAt: int)

  /** `Broken` raises before a decision; `NoCandles` yields none. */
  datatype Reading = NoCandles | Broken | Ready(analysis: Analysis)

  datatype Outcome =
    | NoTrade | WouldTrade | Raised
    | Entered(symbol: Pair, quantity: real, price: real, stop: real, checkedAt: int, recordedAt: int)
    | Closed(symbol: Pair, quantity: real, recordedAt: int)

  predicate AlreadyTraded(p: Portfolio, symbol: Pair, a: Analysis) {
    symbol in p.lastSignalTime && p.lastSignalTime[symbol] >= a.lastClosedAt
  }

  predicate Executes(c: AgentConfig, a: Analysis) {
    c.phoneMode || a.placed
  }

  /** A short signal on a held symbol closes the whole position. */
  function CloseOutcome(p: Portfolio, c: AgentConfig, symbol: Pair, a: Analysis): Outcome
    requires IsOpen(p.open, symbol)
  {
    var held := Lookup(p.open, symbol).value.quantity;
    if held <= 0.0 || (c.exitEma && a.aboveExitEma) || a.sellInFlight then NoTrade
    else if c.dryRun then WouldTrade
    else if !Executes(c, a) then Raised
    else Closed(symbol, held, a.recordedAt)
  }

  function ExposedFraction(p: Portfolio): real {
    if p.equity != 0.0 then Exposure(p.open) / p.equity else 0.0
  }

  function StopFor(c: AgentConfig, a: Analysis): real {
    a.price - a.atr * c.stopAtrMultiple
  }

  function TradeRisk(c: AgentConfig): real {
    c.maxTradeRisk * c.riskMultiplier
  }

  function ProposedNotional(p: Portfolio, c: AgentConfig): real {
    p.equity * c.maxTradeRisk * 10.0
  }

  /** The risk engine's verdict on an entry, and its size. */
  datatype Gate = Gate(verdict: Verdict, size: Sizing)

  function EntryGate(p: Portfolio, c: AgentConfig, symbol: Pair, a: Analysis): Gate {
    Gate(
      TradeVerdict(p, symbol, ProposedNotional(p, c), c.rules, a.correlated, a.checkedAt),
      SizeOf(p.equity, a.price, StopFor(c, a), a.confidence, TradeRisk(c), c.rules.maxPositionSize,
             ExposedFraction(p), c.rules.maxPortfolioExposure, CorrelationPenalty(p.open, a.correlated)))
  }

  predicate Opens(g: Gate) {
    g.verdict.Approved? && g.size.Sized? && g.size.quantity > 0.0
  }

  function EntryOutcome(c: AgentConfig, symbol: Pair, a: Analysis, g: Gate): Outcome {
    if a.signal.Long? && !a.entryFilters then NoTrade
    else if a.atr <= 0.0 then Raised
    else if a.signal.Short? || a.buyInFlight || !g.verdict.Approved? then NoTrade
    else if g.size.Invalid? then Raised
    else if g.size.quantity <= 0.0 then NoTrade
    else if c.dryRun then WouldTrade
    else if !Executes(c, a) then Raised
    else Entered(symbol, g.size.quantity, a.price, StopFor(c, a), a.checkedAt, a.recordedAt)
  }

  function OutcomeFor(p: Portfolio, c: AgentConfig, symbol: Pair, r: Reading): Outcome {
    match r
    case NoCandles => NoTrade
    case Broken => Raised
    case Ready(a) =>
      if a.signal.NoSignal? || (c.oneTradePerCandle && AlreadyTraded(p, symbol, a)) then NoTrade
      else if a.signal.Short? && IsOpen(p.open, symbol) then CloseOutcome(p, c, symbol, a)
      else EntryOutcome(c, symbol, a, EntryGate(p, c, symbol, a))
  }

  function Remove(open: seq<Holding>, symbol: Pair): seq<Holding> {
    if open == [] then []
    else
      var n := |open| - 1;
      Remove(open[..n], symbol) + (if open[n].symbol == symbol then [] else [open[n]])
  }

  function Reserved(p: Portfolio, symbol: Pair, quantity: real, price: real, at: int): Portfolio {
    p.(open := p.open + [Holding(symbol, quantity * price, quantity, price)],
       cash := Max(0.0, p.cash - quantity * price),
       tradesThisHour := p.tradesThisHour + 1,
       lastEntryTime := Some(at),
       lastSignalTime := p.lastSignalTime[symbol := at])
  }

  function Released(p: Portfolio, symbol: Pair, at: int): Portfolio {
    p.(open := Remove(p.open, symbol), lastSignalTime := p.lastSignalTime[symbol := at])
  }

  function AfterOutcome(p: Portfolio, o: Outcome): Portfolio {
    match o
    case Entered(symbol, quantity, price, _, _, at) => Reserved(p, symbol, quantity, price, at)
    case Closed(symbol, _, at) => Released(p, symbol, at)
    case _ => p
  }

  /** The state after judging the symbols in order. */
  function After(p: Portfolio, c: AgentConfig, work: seq<(Pair, Reading)>): Portfolio
    decreases work
  {
    if work == [] then p else After(AfterOutcome(p, OutcomeFor(p, c, work[0].0, work[0].1)), c, work[1..])
  }

  /** What happened to each symbol. */
  function Outcomes(p: Portfolio, c: AgentConfig, work: seq<(Pair, Reading)>): (os: seq<Outcome>)
    ensures |os| == |work|
    decreases work
  {
    if work == [] then []
    else
      var o := OutcomeFor(p, c, work[0].0, work[0].1);
      [o] + Outcomes(AfterOutcome(p, o), c, work[1..])
  }

  class PortfolioState {
    var equity: real
    var peakEquity: real
    var cash: real
    var openPositions: seq<Holding>
    var dailyPnl: real
    var dailyStartEquity: real
    var tradesThisHour: int
    var lastEntryTime: Option<int>
    var lastSignalTimeBySymbol: map<Pair, int>

    function View(): Portfolio
      reads this
    {
      Portfolio(equity, peakEquity, cash, openPositions, dailyPnl, dailyStartEquity,
                tradesThisHour, lastEntryTime, lastSignalTimeBySymbol)
    }

    constructor (p: Portfolio)
      ensures View() == p
    {
      equity, peakEquity, cash, openPositions := p.equity, p.peakEquity, p.cash, p.open;
      dailyPnl, dailyStartEquity, tradesThisHour := p.dailyPnl, p.dailyStartEquity, p.tradesThisHour;
      lastEntryTime, lastSignalTimeBySymbol := p.lastEntryTime, p.lastSignalTime;
    }

    method ReserveEntry(symbol: Pair, quantity: real, price: real, at: int)
      requires !IsOpen(openPositions, symbol)
      modifies this
      ensures View() == Reserved(old(View()), symbol, quantity, price, at)
    {
      openPositions := openPositions + [Holding(symbol, quantity * price, quantity, price)];
      cash := Max(0.0, cash - quantity * price);
      tradesThisHour := tradesThisHour + 1;
      lastEntryTime := Some(at);
      lastSignalTimeBySymbol := lastSignalTimeBySymbol[symbol := at];
    }

    method ReleasePosition(symbol: Pair, at: int)
      modifies this
      ensures View() == Released(old(View()), symbol, at)
    {
      openPositions := Remove(openPositions, symbol);
      lastSignalTimeBySymbol := lastSignalTimeBySymbol[symbol := at];
    }
  }

  method ProcessSymbol(state: PortfolioState, c: AgentConfig, symbol: Pair, r: Reading) returns (o: Outcome)
    modifies state
    ensures o == OutcomeFor(old(state.View()), c, symbol, r)
    ensures state.View() == AfterOutcome(old(state.View()), o)
  {
    hide SizeOf, TradeVerdict, CorrelationPenalty, ExposedFraction, StopFor, TradeRisk, ProposedNotional;
    if r.NoCandles? {
      return NoTrade;
    }
    if r.Broken? {
      return Raised;
    }
    var a := r.analysis;
    if a.signal.NoSignal? {
      return NoTrade;
    }
    if c.oneTradePerCandle && AlreadyTraded(state.View(), symbol, a) {
      return NoTrade;
    }
    if a.signal.Short? && IsOpen(state.openPositions, symbol) {
      o := CloseOutcome(state.View(), c, symbol, a);
      if o.Closed? {
        state.ReleasePosition(symbol, a.recordedAt);
      }
      return;
    }
    if a.signal.Long? && !a.entryFilters {
      return NoTrade;
    }
    if a.atr <= 0.0 {
      return Raised;
    }
    if a.signal.Short? || a.buyInFlight {
      return NoTrade;
    }
    var verdict, penalty := CheckTradeAgainstLimits(
      state.View(), symbol, ProposedNotional(state.View(), c), c.rules, a.correlated, a.checkedAt);
    if !verdict.Approved? {
      return NoTrade;
    }
    var size := CalculatePositionSize(
      state.equity, a.price, StopFor(c, a), a.confidence, TradeRisk(c), c.rules.maxPositionSize,
      ExposedFraction(state.View()), c.rules.maxPortfolioExposure, penalty);
    assert Gate(verdict, size) == EntryGate(state.View(), c, symbol, a);
    if size.Invalid? {
      return Raised;
    }
    if size.quantity <= 0.0 {
      return NoTrade;
    }
    if c.dryRun {
      return WouldTrade;
    }
    if !c.phoneMode && !a.placed {
      return Raised;
    }
    GateFacts(state.View(), c, symbol, a);
    state.ReserveEntry(symbol, size.quantity, a.price, a.recordedAt);
    return Entered(symbol, size.quantity, a.price, StopFor(c, a), a.checkedAt, a.recordedAt);
  }

  lemma {:induction false} PassAppends(p: Portfolio, c: AgentConfig, work: seq<(Pair, Reading)>, last: (Pair, Reading))
    ensures var o := OutcomeFor(After(p, c, work), c, last.0, last.1);
      && After(p, c, work + [last]) == AfterOutcome(After(p, c, work), o)
      && Outcomes(p, c, work + [last]) == Outcomes(p, c, work) + [o]
    decreases work
  {
    hide OutcomeFor, AfterOutcome;
    if work == [] {
      assert work + [last] == [last];
      assert [last][1..] == [];
    } else {
      var next := AfterOutcome(p, OutcomeFor(p, c, work[0].0, work[0].1));
      assert (work + [last])[1..] == work[1..] + [last];
      PassAppends(next, c, work[1..], last);
    }
  }

  /** The per-symbol loop of a tick; a symbol that raises is skipped and the loop goes on. */
  method RunSymbols(state: PortfolioState, c: AgentConfig, work: seq<(Pair, Reading)>) returns (outcomes: seq<Outcome>)
    modifies state
    ensures state.View() == After(old(state.View()), c, work)
    ensures outcomes == Outcomes(old(state.View()), c, work)
  {
    hide OutcomeFor, AfterOutcome;
    outcomes := [];
    for i := 0 to |work|
      invariant state.View() == After(old(state.View()), c, work[..i])
      invariant outcomes == Outcomes(old(state.View()), c, work[..i])
    {
      assert work[..i + 1] == work[..i] + [work[i]];
      PassAppends(old(state.View()), c, work[..i], work[i]);
      var o := ProcessSymbol(state, c, work[i].0, work[i].1);
      outcomes := outcomes + [o];
    }
    assert work[..|work|] == work;
  }

  // ----- what one tick can never exceed -----

  /** An entry's position cap and its loss at the stop. */
  ghost predicate WithinLimits(equity: real, c: AgentConfig, o: Outcome) {
    o.Entered? ==>
      && o.quantity > 0.0
      && o.quantity * o.price <= c.rules.maxPositionSize * equity
      && o.quantity * StopDistance(o.price, o.stop) <= equity * TradeRisk(c)
  }

  ghost predicate NonNegativeNotionals(open: seq<Holding>) {
    forall i | 0 <= i < |open| :: open[i].notional >= 0.0
  }

  lemma ExposureAppend(open: seq<Holding>, h: Holding)
    ensures Exposure(open + [h]) == Exposure(open) + h.notional
  {
  }

  lemma {:induction false} RemoveShrinks(open: seq<Holding>, symbol: Pair)
    requires NonNegativeNotionals(open)
    ensures Exposure(Remove(open, symbol)) <= Exposure(open)
    ensures |Remove(open, symbol)| <= |open|
    ensures NonNegativeNotionals(Remove(open, symbol))
  {
    if open != [] {
      var n := |open| - 1;
      RemoveShrinks(open[..n], symbol);
      var rest := Remove(open[..n], symbol);
      ExposureAppend(rest, open[n]);
      assert rest + [] == rest && open[n].notional >= 0.0;
      assert Exposure(open) == Exposure(open[..n]) + open[n].notional;
    }
  }

  lemma VerdictFacts(p: Portfolio, symbol: Pair, proposed: real, rules: TradeRules,
                     correlated: seq<(Pair, real)>, now: int)
    requires TradeVerdict(p, symbol, proposed, rules, correlated, now).Approved?
    ensures p.equity != 0.0 && !IsOpen(p.open, symbol)
    ensures |p.open| < rules.maxOpenPositions && p.tradesThisHour < rules.maxTradesPerHour
    ensures p.lastEntryTime.Some? ==> now - p.lastEntryTime.value >= rules.minEntryGapSeconds
  {
  }

  /** The exposure room, in money. */
  lemma RoomInMoney(p: Portfolio, maxExposed: real, notional: real)
    requires p.equity != 0.0
    requires notional <= (maxExposed - ExposedFraction(p)) * p.equity
    ensures Exposure(p.open) + notional <= maxExposed * p.equity
  {
    QuotientTimes(Exposure(p.open), p.equity);
    assert (maxExposed - ExposedFraction(p)) * p.equity == maxExposed * p.equity - ExposedFraction(p) * p.equity;
  }

  /** An approved, sized entry respects every limit of the state it was judged on. */
  lemma GateFacts(p: Portfolio, c: AgentConfig, symbol: Pair, a: Analysis)
    requires Opens(EntryGate(p, c, symbol, a))
    ensures var size := EntryGate(p, c, symbol, a).size;
      && size.quantity * a.price == size.notional
      && 0.0 < size.notional <= c.rules.maxPositionSize * p.equity
      && Exposure(p.open) + size.notional <= c.rules.maxPortfolioExposure * p.equity
      && size.quantity * StopDistance(a.price, StopFor(c, a)) <= p.equity * TradeRisk(c)
    ensures !IsOpen(p.open, symbol)
    ensures |p.open| < c.rules.maxOpenPositions && p.tradesThisHour < c.rules.maxTradesPerHour
    ensures p.lastEntryTime.Some? ==> a.checkedAt - p.lastEntryTime.value >= c.rules.minEntryGapSeconds
  {
    hide SizeOf, TradeVerdict, CorrelationPenalty, ExposedFraction, Exposure;
    hide StopFor, TradeRisk, ProposedNotional, StopDistance;
    VerdictFacts(p, symbol, ProposedNotional(p, c), c.rules, a.correlated, a.checkedAt);
    SizeRespectsLimits(p.equity, a.price, StopFor(c, a), a.confidence, TradeRisk(c), c.rules.maxPositionSize,
                       ExposedFraction(p), c.rules.maxPortfolioExposure, CorrelationPenalty(p.open, a.correlated));
    RoomInMoney(p, c.rules.maxPortfolioExposure, EntryGate(p, c, symbol, a).size.notional);
  }

  /** Entries are at least the minimum gap after the one before. */
  ghost predicate SpacedFrom(last: Option<int>, outcomes: seq<Outcome>, gap: int)
    decreases outcomes
  {
    outcomes != [] ==>
      && (outcomes[0].Entered? && last.Some? ==> outcomes[0].checkedAt - last.value >= gap)
      && SpacedFrom(if outcomes[0].Entered? then Some(outcomes[0].recordedAt) else last, outcomes[1..], gap)
  }

  function MaxInt(x: int, y: int): int {
    if x >= y then x else y
  }

  /** What every single step keeps. */
  ghost predicate Bounded(before: Portfolio, after: Portfolio, rules: TradeRules) {
    && after.equity == before.equity
    && NonNegativeNotionals(after.open)
    && Exposure(after.open) <= Max(Exposure(before.open), rules.maxPortfolioExposure * before.equity)
    && |after.open| <= MaxInt(|before.open|, rules.maxOpenPositions)
    && before.tradesThisHour <= after.tradesThisHour <= MaxInt(before.tradesThisHour, rules.maxTradesPerHour)
  }

  lemma EntryBounded(p: Portfolio, c: AgentConfig, o: Outcome)
    requires NonNegativeNotionals(p.open) && o.Entered?
    requires o.quantity * o.price >= 0.0
    requires Exposure(p.open) + o.quantity * o.price <= c.rules.maxPortfolioExposure * p.equity
    requires |p.open| < c.rules.maxOpenPositions && p.tradesThisHour < c.rules.maxTradesPerHour
    ensures Bounded(p, AfterOutcome(p, o), c.rules)
  {
    ExposureAppend(p.open, Holding(o.symbol, o.quantity * o.price, o.quantity, o.price));
  }

  lemma StepBounded(p: Portfolio, c: AgentConfig, symbol: Pair, r: Reading)
    requires NonNegativeNotionals(p.open)
    ensures var o := OutcomeFor(p, c, symbol, r);
      && Bounded(p, AfterOutcome(p, o), c.rules)
      && WithinLimits(p.equity, c, o)
      && (o.Entered? && p.lastEntryTime.Some? ==> o.checkedAt - p.lastEntryTime.value >= c.rules.minEntryGapSeconds)
  {
    hide EntryGate, StopFor, TradeRisk, StopDistance, Exposure;
    var o := OutcomeFor(p, c, symbol, r);
    if o.Entered? {
      GateFacts(p, c, symbol, r.analysis);
      EntryBounded(p, c, o);
    } else if o.Closed? {
      RemoveShrinks(p.open, symbol);
    }
  }

  lemma BoundedTransitive(p: Portfolio, q: Portfolio, r: Portfolio, rules: TradeRules)
    requires Bounded(p, q, rules) && Bounded(q, r, rules)
    ensures Bounded(p, r, rules)
  {
  }

  /**
   * For any symbols and any signals, one pass keeps total notional, position
   * count and hourly trades at their caps (or at where they already were),
   * spaces its entries and keeps every entry inside its own limits.
   */
  lemma {:induction false} PassKeepsLimits(p: Portfolio, c: AgentConfig, work: seq<(Pair, Reading)>)
    requires NonNegativeNotionals(p.open)
    ensures Bounded(p, After(p, c, work), c.rules)
    ensures SpacedFrom(p.lastEntryTime, Outcomes(p, c, work), c.rules.minEntryGapSeconds)
    ensures forall i | 0 <= i < |work| :: WithinLimits(p.equity, c, Outcomes(p, c, work)[i])
    decreases work
  {
    hide OutcomeFor, WithinLimits, Exposure;
    if work != [] {
      var o := OutcomeFor(p, c, work[0].0, work[0].1);
      var next := AfterOutcome(p, o);
      StepBounded(p, c, work[0].0, work[0].1);
      PassKeepsLimits(next, c, work[1..]);
      BoundedTransitive(p, next, After(next, c, work[1..]), c.rules);
      var rest := Outcomes(next, c, work[1..]);
      assert Outcomes(p, c, work) == [o] + rest && ([o] + rest)[1..] == rest;
    }
  }

  /** At a multiplier that is a positive fraction, an entry never risks more than the configured share of equity. */
  lemma RiskPerTrade(equity: real, c: AgentConfig, o: Outcome)
    requires WithinLimits(equity, c, o) && o.Entered?
    requires 0.0 < c.riskMultiplier <= 1.0
    ensures o.quantity * StopDistance(o.price, o.stop) <= equity * c.maxTradeRisk
  {
    var loss, base := o.quantity * StopDistance(o.price, o.stop), equity * c.maxTradeRisk;
    assert equity * TradeRisk(c) == base * c.riskMultiplier;
    ProductNonNegative(o.quantity, StopDistance(o.price, o.stop));
    hide StopDistance, TradeRisk;
    if base < 0.0 {
      ProductSign(-base, c.riskMultiplier);
    } else {
      FractionAtMost(base, c.riskMultiplier, base * c.riskMultiplier);
    }
  }

  /** The multiplier a tick runs with: the supervisor's verdict, or the default if it is off or fails. */
  ghost predicate Supervised(c: AgentConfig, trades: seq<Supervisor.ClosedTrade>, now: int) {
    || c.riskMultiplier == 1.0
    || c.riskMultiplier == Supervisor.RiskFor(Supervisor.LossCount(Supervisor.Recent(trades, now)))
  }

  /**
   * Whatever the trades before, the symbols and the signals, every entry of a pass loses at its stop at most the
   * configured share of the equity.
   */
  lemma PassRiskBounded(p: Portfolio, c: AgentConfig, work: seq<(Pair, Reading)>,
                        trades: seq<Supervisor.ClosedTrade>, now: int)
    requires NonNegativeNotionals(p.open) && Supervised(c, trades, now)
    ensures forall i | 0 <= i < |work| && Outcomes(p, c, work)[i].Entered? ::
      var o := Outcomes(p, c, work)[i];
      o.quantity * StopDistance(o.price, o.stop) <= p.equity * c.maxTradeRisk
  {
    hide Outcomes, WithinLimits, StopDistance, Bounded, SpacedFrom, Supervisor.LossCount, Supervisor.Recent;
    PassKeepsLimits(p, c, work);
    Supervisor.RiskIsFraction(Supervisor.LossCount(Supervisor.Recent(trades, now)));
    forall i | 0 <= i < |work| && Outcomes(p, c, work)[i].Entered?
      ensures var o := Outcomes(p, c, work)[i];
        o.quantity * StopDistance(o.price, o.stop) <= p.equity * c.maxTradeRisk
    {
      RiskPerTrade(p.equity, c, Outcomes(p, c, work)[i]);
    }
  }
}
