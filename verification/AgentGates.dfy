/**
 * What opens and what closes a position, exactly: every gate of one symbol in its own terms, the orders already in
 * flight among them, and in both directions, so that a gate that is missing and one that refuses everything both show.
 */
module AgentGates {
  import opened Common
  import opened RiskEngine
  import opened PositionSizing
  import opened AgentTick

  /** What is held of a symbol: the quantity of its last entry. */
  ghost predicate HeldQuantity(open: seq<Holding>, symbol: Pair, quantity: real) {
    exists i | 0 <= i < |open| ::
      && open[i].symbol == symbol && open[i].quantity == quantity
      && forall j | i < j < |open| :: open[j].symbol != symbol
  }

  ghost predicate NotHeld(open: seq<Holding>, symbol: Pair) {
    forall i | 0 <= i < |open| :: open[i].symbol != symbol
  }

  /** Where one trade a candle is the rule, the symbol has not traded since the last closed candle. */
  ghost predicate Rested(p: Portfolio, c: AgentConfig, symbol: Pair, a: Analysis) {
    c.oneTradePerCandle && symbol in p.lastSignalTime ==> p.lastSignalTime[symbol] < a.lastClosedAt
  }

  /** A held symbol may be sold: a short signal, below the exit EMA if there is one, and no sell in flight. */
  ghost predicate MayClose(p: Portfolio, c: AgentConfig, symbol: Pair, a: Analysis, held: real) {
    && a.signal == Short && Rested(p, c, symbol, a)
    && HeldQuantity(p.open, symbol, held) && held > 0.0
    && !(c.exitEma && a.aboveExitEma)
    && !a.sellInFlight
  }

  /** The stop of an entry. */
  function EntryStop(c: AgentConfig, a: Analysis): real {
    a.price - a.atr * c.stopAtrMultiple
  }

  /** The part of the equity an entry may risk. */
  function RiskPart(c: AgentConfig): real {
    c.maxTradeRisk * c.riskMultiplier
  }

  /** The part of the equity that is invested. */
  function InvestedPart(p: Portfolio): real {
    if p.equity != 0.0 then Sum(Notionals(p.open)) / p.equity else 0.0
  }

  /** What the caps leave for an entry, in money. */
  function EntryAllowances(p: Portfolio, c: AgentConfig, a: Analysis): seq<real>
    requires ValidPrices(a.price, EntryStop(c, a))
  {
    Allowances(p.equity, a.price, EntryStop(c, a), a.confidence, RiskPart(c), c.rules.maxPositionSize,
               InvestedPart(p), c.rules.maxPortfolioExposure, CorrelationPenalty(p.open, a.correlated))
  }

  /** The money an entry is checked for: ten times the risk. */
  function Checked(p: Portfolio, c: AgentConfig): real {
    p.equity * c.maxTradeRisk * 10.0
  }

  /** Everything but the size: a long signal through its filters, no buy in flight, and within the rules. */
  ghost predicate MayBuy(p: Portfolio, c: AgentConfig, symbol: Pair, a: Analysis) {
    && a.signal == Long && Rested(p, c, symbol, a)
    && a.entryFilters && a.atr > 0.0 && !a.buyInFlight
    && WithinRules(p, symbol, Checked(p, c), c.rules, a.correlated, a.checkedAt)
  }

  /** And room for a position at its stop. */
  ghost predicate MayEnter(p: Portfolio, c: AgentConfig, symbol: Pair, a: Analysis) {
    && MayBuy(p, c, symbol, a)
    && ValidPrices(a.price, EntryStop(c, a))
    && MinOf(EntryAllowances(p, c, a)) > 0.0
  }

  lemma HeldBefore(rest: seq<Holding>, last: Holding, symbol: Pair, quantity: real)
    requires last.symbol != symbol && HeldQuantity(rest, symbol, quantity)
    ensures HeldQuantity(rest + [last], symbol, quantity)
  {
    var open := rest + [last];
    var i :| 0 <= i < |rest| && rest[i].symbol == symbol && rest[i].quantity == quantity
             && forall j | i < j < |rest| :: rest[j].symbol != symbol;
    assert open[i] == rest[i];
    assert forall j | i < j < |rest| :: open[j] == rest[j];
  }

  lemma {:induction false} LookupIsHeld(open: seq<Holding>, symbol: Pair)
    ensures Lookup(open, symbol).None? <==> NotHeld(open, symbol)
    ensures Lookup(open, symbol).Some? ==> HeldQuantity(open, symbol, Lookup(open, symbol).value.quantity)
  {
    if open != [] {
      var n := |open| - 1;
      var rest := open[..n];
      if open[n].symbol != symbol {
        LookupIsHeld(rest, symbol);
        assert open == rest + [open[n]];
        if Lookup(rest, symbol).Some? {
          HeldBefore(rest, open[n], symbol, Lookup(rest, symbol).value.quantity);
        }
      }
    }
  }

  lemma HeldOnce(open: seq<Holding>, symbol: Pair, x: real, y: real)
    requires HeldQuantity(open, symbol, x) && HeldQuantity(open, symbol, y)
    ensures x == y && !NotHeld(open, symbol)
  {
  }

  /** The outcome of a trade that every gate lets through. */
  function Placed(c: AgentConfig, a: Analysis, o: Outcome): Outcome {
    if c.dryRun then WouldTrade else if c.phoneMode || a.placed then o else Raised
  }

  lemma CloseExactly(p: Portfolio, c: AgentConfig, symbol: Pair, a: Analysis, held: real)
    requires a.signal == Short && HeldQuantity(p.open, symbol, held)
    ensures OutcomeFor(p, c, symbol, Ready(a)) == if MayClose(p, c, symbol, a, held)
                                                  then Placed(c, a, Closed(symbol, held, a.recordedAt)) else NoTrade
  {
    LookupIsHeld(p.open, symbol);
    HeldOnce(p.open, symbol, held, Lookup(p.open, symbol).value.quantity);
    hide HeldQuantity, NotHeld, Lookup, EntryGate;
  }

  lemma VerdictExactly(p: Portfolio, c: AgentConfig, symbol: Pair, a: Analysis)
    ensures EntryGate(p, c, symbol, a).verdict.Approved?
       <==> WithinRules(p, symbol, Checked(p, c), c.rules, a.correlated, a.checkedAt)
  {
    assert ProposedNotional(p, c) == Checked(p, c);
    hide TradeVerdict, SizeOf, WithinRules, CorrelationPenalty, ProposedNotional, Checked, ExposedFraction;
    ApprovedExactly(p, symbol, Checked(p, c), c.rules, a.correlated, a.checkedAt);
  }

  lemma InputsExactly(p: Portfolio, c: AgentConfig, a: Analysis)
    ensures TradeRisk(c) == RiskPart(c) && StopFor(c, a) == EntryStop(c, a) && ExposedFraction(p) == InvestedPart(p)
  {
    ExposureIsSum(p.open);
    hide Exposure, Sum, Notionals;
  }

  lemma AllowancesAre(p: Portfolio, c: AgentConfig, a: Analysis)
    requires ValidPrices(a.price, StopFor(c, a))
    ensures StopFor(c, a) == EntryStop(c, a)
    ensures EntryAllowances(p, c, a)
         == Allowances(p.equity, a.price, StopFor(c, a), a.confidence, TradeRisk(c), c.rules.maxPositionSize,
                       ExposedFraction(p), c.rules.maxPortfolioExposure, CorrelationPenalty(p.open, a.correlated))
  {
    InputsExactly(p, c, a);
    hide ExposedFraction, InvestedPart, TradeRisk, RiskPart, StopFor, EntryStop, Allowances, CorrelationPenalty;
  }

  lemma SizeExactly(p: Portfolio, c: AgentConfig, symbol: Pair, a: Analysis)
    ensures var size := EntryGate(p, c, symbol, a).size;
      && (size.Sized? <==> ValidPrices(a.price, EntryStop(c, a)))
      && (size.Sized? ==>
            && size.quantity * a.price == Max(0.0, MinOf(EntryAllowances(p, c, a)))
            && (size.quantity > 0.0 <==> MinOf(EntryAllowances(p, c, a)) > 0.0))
  {
    InputsExactly(p, c, a);
    hide TradeVerdict, SizeOf, CorrelationPenalty, ExposedFraction, InvestedPart, TradeRisk, RiskPart, StopFor;
    hide EntryStop, ProposedNotional, Allowances, MinOf, EntryAllowances;
    SizeIsSmallest(p.equity, a.price, StopFor(c, a), a.confidence, TradeRisk(c), c.rules.maxPositionSize,
                   ExposedFraction(p), c.rules.maxPortfolioExposure, CorrelationPenalty(p.open, a.correlated));
    if ValidPrices(a.price, StopFor(c, a)) {
      AllowancesAre(p, c, a);
      AllPositive(EntryAllowances(p, c, a));
    }
  }

  lemma AllPositive(a: seq<real>)
    requires |a| == 3
    ensures MinOf(a) > 0.0 <==> a[0] > 0.0 && a[1] > 0.0 && a[2] > 0.0
  {
  }

  lemma NotHeldIsShort(p: Portfolio, c: AgentConfig, symbol: Pair, a: Analysis)
    requires a.signal == Short && NotHeld(p.open, symbol)
    ensures OutcomeFor(p, c, symbol, Ready(a)) in {NoTrade, Raised}
  {
    LookupIsHeld(p.open, symbol);
    hide Lookup, EntryGate;
  }

  /** The outcome of a long signal, by the verdict and size of its gate. */
  lemma LongOutcome(p: Portfolio, c: AgentConfig, symbol: Pair, a: Analysis, g: Gate, stop: real)
    requires a.signal == Long && g == EntryGate(p, c, symbol, a) && stop == StopFor(c, a)
    ensures var o := OutcomeFor(p, c, symbol, Ready(a));
      if Rested(p, c, symbol, a) && a.entryFilters && a.atr > 0.0 && !a.buyInFlight && Opens(g)
      then o == Placed(c, a, Entered(symbol, g.size.quantity, a.price, stop, a.checkedAt, a.recordedAt))
      else o in {NoTrade, Raised}
  {
    hide EntryGate, StopFor, IsOpen;
  }

  lemma GateOpens(p: Portfolio, c: AgentConfig, symbol: Pair, a: Analysis, g: Gate)
    requires g == EntryGate(p, c, symbol, a) && a.signal == Long
    ensures MayEnter(p, c, symbol, a)
       <==> (Rested(p, c, symbol, a) && a.entryFilters && a.atr > 0.0 && !a.buyInFlight && Opens(g))
    ensures MayEnter(p, c, symbol, a) ==>
      g.size.Sized? && g.size.quantity > 0.0 && g.size.quantity * a.price == MinOf(EntryAllowances(p, c, a))
  {
    VerdictExactly(p, c, symbol, a);
    SizeExactly(p, c, symbol, a);
    hide EntryGate, WithinRules, MinOf, EntryAllowances, EntryStop, Checked, ValidPrices, Rested;
  }

  /** A buy that every gate lets through is sized by the smallest allowance; any other is no trade. */
  lemma EnterExactly(p: Portfolio, c: AgentConfig, symbol: Pair, a: Analysis) returns (quantity: real)
    requires a.signal == Long
    ensures var o := OutcomeFor(p, c, symbol, Ready(a));
      if MayEnter(p, c, symbol, a)
      then o == Placed(c, a, Entered(symbol, quantity, a.price, EntryStop(c, a), a.checkedAt, a.recordedAt))
      else o in {NoTrade, Raised}
    ensures MayEnter(p, c, symbol, a) ==> quantity > 0.0 && quantity * a.price == MinOf(EntryAllowances(p, c, a))
  {
    LongIsReady(p, c, symbol, a);
    hide *;
    var g := EntryGate(p, c, symbol, a);
    InputsExactly(p, c, a);
    GateOpens(p, c, symbol, a, g);
    LongOutcome(p, c, symbol, a, g, StopFor(c, a));
    quantity := if g.size.Sized? then g.size.quantity else 0.0;
  }

  /** Nothing stands between a decision and its order. */
  predicate GoesThrough(c: AgentConfig, r: Reading) {
    r.Ready? && !c.dryRun && (c.phoneMode || r.analysis.placed)
  }

  /** A position is closed exactly when it may be and the order goes through, and then all of it. */
  ghost predicate ClosesExactly(before: Portfolio, c: AgentConfig, symbol: Pair, r: Reading, o: Outcome) {
    && (o.Closed? ==>
          && GoesThrough(c, r) && MayClose(before, c, symbol, r.analysis, o.quantity)
          && o.symbol == symbol && o.recordedAt == r.analysis.recordedAt)
    && (forall held | GoesThrough(c, r) && MayClose(before, c, symbol, r.analysis, held) ::
          o == Closed(symbol, held, r.analysis.recordedAt))
  }

  /** One is entered exactly when it may be and the order goes through, for the smallest of its allowances. */
  ghost predicate EntersExactly(before: Portfolio, c: AgentConfig, symbol: Pair, r: Reading, o: Outcome) {
    && (o.Entered? <==> GoesThrough(c, r) && MayEnter(before, c, symbol, r.analysis))
    && (o.Entered? ==>
          && o == Entered(symbol, o.quantity, r.analysis.price, EntryStop(c, r.analysis),
                          r.analysis.checkedAt, r.analysis.recordedAt)
          && o.quantity > 0.0 && o.quantity * o.price == MinOf(EntryAllowances(before, c, r.analysis)))
  }

  /** Over a whole pass, each outcome against the state just before it. A dry run neither enters nor closes. */
  lemma PassExactly(p: Portfolio, c: AgentConfig, work: seq<(Pair, Reading)>, i: nat)
    requires i < |work|
    ensures var before, o := After(p, c, work[..i]), Outcomes(p, c, work)[i];
      && ClosesExactly(before, c, work[i].0, work[i].1, o)
      && EntersExactly(before, c, work[i].0, work[i].1, o)
      && (o.WouldTrade? ==> c.dryRun)
  {
    hide *;
    OutcomeAt(p, c, work, i);
    OneExactly(After(p, c, work[..i]), c, work[i].0, work[i].1);
  }

  lemma OneExactly(before: Portfolio, c: AgentConfig, symbol: Pair, r: Reading)
    ensures var o := OutcomeFor(before, c, symbol, r);
      && ClosesExactly(before, c, symbol, r, o) && EntersExactly(before, c, symbol, r, o)
      && (o.WouldTrade? ==> c.dryRun)
  {
    if r.Ready? && r.analysis.signal == Long {
      LongExactly(before, c, symbol, r.analysis);
    } else if r.Ready? && r.analysis.signal == Short {
      ShortExactly(before, c, symbol, r.analysis);
    } else {
      NoSignalExactly(before, c, symbol, r);
    }
  }

  lemma NoSignalExactly(before: Portfolio, c: AgentConfig, symbol: Pair, r: Reading)
    requires !r.Ready? || r.analysis.signal == NoSignal
    ensures var o := OutcomeFor(before, c, symbol, r);
      ClosesExactly(before, c, symbol, r, o) && EntersExactly(before, c, symbol, r, o) && !o.WouldTrade?
  {
    hide WithinRules, MinOf, EntryAllowances, EntryStop, HeldQuantity;
  }

  lemma LongExactly(before: Portfolio, c: AgentConfig, symbol: Pair, a: Analysis)
    requires a.signal == Long
    ensures var o := OutcomeFor(before, c, symbol, Ready(a));
      && ClosesExactly(before, c, symbol, Ready(a), o) && EntersExactly(before, c, symbol, Ready(a), o)
      && (o.WouldTrade? ==> c.dryRun)
  {
    hide OutcomeFor, MayEnter, MinOf, EntryAllowances, EntryStop, HeldQuantity, WithinRules;
    var quantity := EnterExactly(before, c, symbol, a);
    LongIsReady(before, c, symbol, a);
  }

  lemma LongIsReady(p: Portfolio, c: AgentConfig, symbol: Pair, a: Analysis)
    ensures MayEnter(p, c, symbol, a) ==> ValidPrices(a.price, EntryStop(c, a))
    ensures a.signal == Long ==> forall held :: !MayClose(p, c, symbol, a, held)
  {
    hide WithinRules, MinOf, EntryAllowances, HeldQuantity;
  }

  lemma ShortExactly(before: Portfolio, c: AgentConfig, symbol: Pair, a: Analysis)
    requires a.signal == Short
    ensures var o := OutcomeFor(before, c, symbol, Ready(a));
      && ClosesExactly(before, c, symbol, Ready(a), o) && EntersExactly(before, c, symbol, Ready(a), o)
      && (o.WouldTrade? ==> c.dryRun)
  {
    LookupIsHeld(before.open, symbol);
    if NotHeld(before.open, symbol) {
      NotHeldIsShort(before, c, symbol, a);
      NothingToClose(before, c, symbol, a);
    } else {
      var held := Lookup(before.open, symbol).value.quantity;
      CloseExactly(before, c, symbol, a, held);
      OnlyOneHeld(before, c, symbol, a, held);
    }
    hide OutcomeFor, MayClose, MayBuy, MinOf, EntryAllowances, EntryStop, HeldQuantity, NotHeld, Lookup;
    ShortNeverEnters(before, c, symbol, a);
  }

  lemma ShortNeverEnters(p: Portfolio, c: AgentConfig, symbol: Pair, a: Analysis)
    requires a.signal == Short
    ensures !MayEnter(p, c, symbol, a)
  {
    hide WithinRules, MinOf, EntryAllowances;
  }

  lemma NothingToClose(p: Portfolio, c: AgentConfig, symbol: Pair, a: Analysis)
    requires NotHeld(p.open, symbol)
    ensures forall held :: !MayClose(p, c, symbol, a, held)
  {
  }

  lemma OnlyOneHeld(p: Portfolio, c: AgentConfig, symbol: Pair, a: Analysis, held: real)
    requires HeldQuantity(p.open, symbol, held)
    ensures forall other | MayClose(p, c, symbol, a, other) :: other == held
  {
    forall other | MayClose(p, c, symbol, a, other)
      ensures other == held
    {
      HeldOnce(p.open, symbol, held, other);
    }
  }

  lemma {:induction false} OutcomeAt(p: Portfolio, c: AgentConfig, work: seq<(Pair, Reading)>, i: nat)
    requires i < |work|
    ensures Outcomes(p, c, work)[i] == OutcomeFor(After(p, c, work[..i]), c, work[i].0, work[i].1)
    decreases work
  {
    hide OutcomeFor, AfterOutcome;
    if i > 0 {
      OutcomeAt(AfterOutcome(p, OutcomeFor(p, c, work[0].0, work[0].1)), c, work[1..], i - 1);
      assert work[..i][1..] == work[1..][..i - 1];
    }
  }

  // ----- what a trade leaves behind -----

  lemma {:induction false} RemovesAll(open: seq<Holding>, symbol: Pair)
    ensures NotHeld(Remove(open, symbol), symbol)
  {
    if open != [] {
      RemovesAll(open[..|open| - 1], symbol);
    }
  }

  lemma {:induction false} RemoveExactly(open: seq<Holding>, symbol: Pair, h: Holding)
    ensures multiset(Remove(open, symbol))[h] == if h.symbol == symbol then 0 else multiset(open)[h]
  {
    if open != [] {
      var n := |open| - 1;
      RemoveExactly(open[..n], symbol, h);
      assert open == open[..n] + [open[n]];
      assert multiset(open) == multiset(open[..n]) + multiset{open[n]};
    }
  }

  /** Every holding of the symbol is gone, and every other one is there as often as before. */
  ghost predicate OnlyGone(before: seq<Holding>, after: seq<Holding>, symbol: Pair) {
    && NotHeld(after, symbol)
    && forall h: Holding :: multiset(after)[h] == if h.symbol == symbol then 0 else multiset(before)[h]
  }

  lemma RemovesOnly(open: seq<Holding>, symbol: Pair)
    ensures OnlyGone(open, Remove(open, symbol), symbol)
  {
    RemovesAll(open, symbol);
    forall h: Holding
      ensures multiset(Remove(open, symbol))[h] == if h.symbol == symbol then 0 else multiset(open)[h]
    {
      RemoveExactly(open, symbol, h);
    }
  }

  /** The same account otherwise. */
  ghost predicate SameAccount(p: Portfolio, q: Portfolio) {
    && q.equity == p.equity && q.peakEquity == p.peakEquity
    && q.dailyPnl == p.dailyPnl && q.dailyStartEquity == p.dailyStartEquity
  }

  /** An entry adds its holding, takes its cost from the cash, and is the newest trade and the newest entry. */
  lemma EntryChanges(p: Portfolio, o: Outcome, cost: real)
    requires o.Entered? && cost == o.quantity * o.price
    ensures var q := AfterOutcome(p, o);
      && SameAccount(p, q)
      && q.open == p.open + [Holding(o.symbol, cost, o.quantity, o.price)]
      && (cost <= p.cash ==> q.cash == p.cash - cost) && (cost > p.cash ==> q.cash == 0.0)
      && q.tradesThisHour == p.tradesThisHour + 1 && q.lastEntryTime == Some(o.recordedAt)
      && q.lastSignalTime == p.lastSignalTime[o.symbol := o.recordedAt]
  {
    var h := Holding(o.symbol, o.quantity * o.price, o.quantity, o.price);
    assert h == Holding(o.symbol, cost, o.quantity, o.price);
    assert AfterOutcome(p, o).open == p.open + [h];
  }

  /** A close leaves nothing of the symbol and everything else, and is the newest trade of the symbol. */
  lemma CloseChanges(p: Portfolio, o: Outcome)
    requires o.Closed?
    ensures var q := AfterOutcome(p, o);
      && SameAccount(p, q) && OnlyGone(p.open, q.open, o.symbol)
      && q.cash == p.cash && q.tradesThisHour == p.tradesThisHour && q.lastEntryTime == p.lastEntryTime
      && q.lastSignalTime == p.lastSignalTime[o.symbol := o.recordedAt]
  {
    hide OnlyGone;
    RemovesOnly(p.open, o.symbol);
  }

  lemma NothingChanges(p: Portfolio, o: Outcome)
    requires !o.Entered? && !o.Closed?
    ensures AfterOutcome(p, o) == p
  {
  }
}
