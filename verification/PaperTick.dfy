/**
 * A whole tick of a simulated account: the agent's pass or its flatten, with every order settled by the paper
 * exchange and not by an assumption about it.
 */
module PaperTick {
  import opened Common
  import opened RiskEngine
  import opened AgentTick
  import opened PaperExchange
  import opened CircuitBreaker
  import PositionSizing

  // ----- flattening -----

  function SellAll(h: Holding): Order {
    Order(h.symbol, Sell, Market, h.quantity, None)
  }

  predicate SaleFills(acc: Account, prices: map<Pair, Quote>, costs: Costs, h: Holding, now: int) {
    h.quantity > 0.0 && Place(acc, prices, SellAll(h), costs, now).1.Filled?
  }

  function AfterSale(acc: Account, prices: map<Pair, Quote>, costs: Costs, h: Holding, now: int): Account {
    if h.quantity > 0.0 then Place(acc, prices, SellAll(h), costs, now).0 else acc
  }

  /** The exchange after one full sell per position, in order. */
  function AfterSales(acc: Account, prices: map<Pair, Quote>, costs: Costs, open: seq<Holding>, now: int): Account
    decreases open
  {
    if open == [] then acc
    else AfterSales(AfterSale(acc, prices, costs, open[0], now), prices, costs, open[1..], now)
  }

  /** The positions whose sell is filled. */
  function SoldIn(acc: Account, prices: map<Pair, Quote>, costs: Costs, open: seq<Holding>, now: int): set<Pair>
    decreases open
  {
    if open == [] then {}
    else
      (if SaleFills(acc, prices, costs, open[0], now) then {open[0].symbol} else {})
      + SoldIn(AfterSale(acc, prices, costs, open[0], now), prices, costs, open[1..], now)
  }

  /** The positions that have something to sell and whose sell is refused. */
  function RefusedIn(acc: Account, prices: map<Pair, Quote>, costs: Costs, open: seq<Holding>, now: int): set<Pair>
    decreases open
  {
    if open == [] then {}
    else
      (if open[0].quantity > 0.0 && !SaleFills(acc, prices, costs, open[0], now) then {open[0].symbol} else {})
      + RefusedIn(AfterSale(acc, prices, costs, open[0], now), prices, costs, open[1..], now)
  }

  /** The loop of the flatten against the paper exchange; a refused order leaves its position and the loop goes on. */
  method FlattenOnPaper(exchange: Exchange, state: PortfolioState, now: int)
    returns (closed: set<Pair>, refused: set<Pair>)
    modifies state, exchange`balances, exchange`costBasis
    ensures var acc, prices, costs := old(exchange.View()), exchange.lastPrice, exchange.costs;
      var open := old(state.openPositions);
      && exchange.View() == AfterSales(acc, prices, costs, open, now)
      && closed == SoldIn(acc, prices, costs, open, now)
      && refused == RefusedIn(acc, prices, costs, open, now)
      && state.openPositions == Excluding(open, closed)
    ensures state.tradesThisHour == old(state.tradesThisHour) && state.lastEntryTime == old(state.lastEntryTime)
  {
    hide Place, Excluding, Remove;
    var snapshot := state.openPositions;
    ghost var acc, prices, costs := exchange.View(), exchange.lastPrice, exchange.costs;
    closed, refused := {}, {};
    assert snapshot[0..] == snapshot;
    ExcludingNone(snapshot);
    for i := 0 to |snapshot|
      invariant exchange.lastPrice == prices
      invariant AfterSales(acc, prices, costs, snapshot, now)
             == AfterSales(exchange.View(), prices, costs, snapshot[i..], now)
      invariant SoldIn(acc, prices, costs, snapshot, now)
             == closed + SoldIn(exchange.View(), prices, costs, snapshot[i..], now)
      invariant RefusedIn(acc, prices, costs, snapshot, now)
             == refused + RefusedIn(exchange.View(), prices, costs, snapshot[i..], now)
      invariant state.openPositions == Excluding(snapshot, closed)
      invariant state.tradesThisHour == old(state.tradesThisHour) && state.lastEntryTime == old(state.lastEntryTime)
    {
      var h := snapshot[i];
      assert snapshot[i..][1..] == snapshot[i + 1..];
      if h.quantity <= 0.0 {
        continue;
      }
      var reply := exchange.CreateOrder(SellAll(h), now);
      if reply.Filled? {
        RemoveExcluded(snapshot, closed, h.symbol);
        state.ReleasePosition(h.symbol, now);
        closed := closed + {h.symbol};
      } else {
        refused := refused + {h.symbol};
      }
    }
  }

  /** The positions of a simulated account are its positive coin balances. */
  ghost predicate Mirrors(open: seq<Holding>, acc: Account, quote: string) {
    && DistinctSymbols(open)
    && (forall i | 0 <= i < |open| ::
          open[i].symbol.quote == quote && open[i].symbol.base != quote
          && open[i].quantity == Get(acc.balances, open[i].symbol.base) > 0.0)
    && (forall a | a != quote && Get(acc.balances, a) > 0.0 :: exists i | 0 <= i < |open| :: open[i].symbol.base == a)
  }

  ghost predicate AllFresh(open: seq<Holding>, prices: map<Pair, Quote>, costs: Costs, now: int) {
    forall i | 0 <= i < |open| :: open[i].symbol in prices && !Stale(prices[open[i].symbol], costs, now)
  }

  lemma FullSale(acc: Account, prices: map<Pair, Quote>, costs: Costs, h: Holding, now: int)
    requires h.symbol in prices && !Stale(prices[h.symbol], costs, now)
    requires h.symbol.base != h.symbol.quote
    requires h.quantity == Get(acc.balances, h.symbol.base) > 0.0
    ensures Place(acc, prices, SellAll(h), costs, now).1.Filled?
    ensures var after := AfterSale(acc, prices, costs, h, now);
      && Get(after.balances, h.symbol.base) == 0.0
      && forall a | a != h.symbol.base && a != h.symbol.quote :: Get(after.balances, a) == Get(acc.balances, a)
  {
    hide Notional, FillPrice, Fee;
  }

  /** Selling one position leaves a simulated account whose positions are the others. */
  lemma MirrorsRest(acc: Account, prices: map<Pair, Quote>, costs: Costs, open: seq<Holding>, quote: string, now: int)
    requires open != [] && Mirrors(open, acc, quote) && AllFresh(open, prices, costs, now)
    ensures SaleFills(acc, prices, costs, open[0], now)
    ensures Mirrors(open[1..], AfterSale(acc, prices, costs, open[0], now), quote)
    ensures AllFresh(open[1..], prices, costs, now)
  {
    hide AfterSale, Place, Stale;
    var h, rest := open[0], open[1..];
    var next := AfterSale(acc, prices, costs, h, now);
    FullSale(acc, prices, costs, h, now);
    forall i | 0 <= i < |rest|
      ensures rest[i].quantity == Get(next.balances, rest[i].symbol.base)
    {
      assert rest[i] == open[i + 1];
      assert rest[i].symbol.base != h.symbol.base by {
        assert rest[i].symbol.quote == h.symbol.quote;
      }
    }
    forall a | a != quote && Get(next.balances, a) > 0.0
      ensures exists i | 0 <= i < |rest| :: rest[i].symbol.base == a
    {
      assert a != h.symbol.base && Get(acc.balances, a) > 0.0;
      var i :| 0 <= i < |open| && open[i].symbol.base == a;
      assert rest[i - 1].symbol.base == a;
    }
  }

  /** With every price fresh, flattening sells each coin to exactly zero, and touches nothing else but cash. */
  lemma {:induction false} FlattenEmpties(acc: Account, prices: map<Pair, Quote>, costs: Costs,
                                          open: seq<Holding>, quote: string, now: int)
    requires Mirrors(open, acc, quote) && AllFresh(open, prices, costs, now)
    ensures var after := AfterSales(acc, prices, costs, open, now);
      forall a | a != quote ::
        Get(after.balances, a) == if Get(acc.balances, a) > 0.0 then 0.0 else Get(acc.balances, a)
    ensures RefusedIn(acc, prices, costs, open, now) == {}
    ensures forall i | 0 <= i < |open| :: open[i].symbol in SoldIn(acc, prices, costs, open, now)
    decreases open
  {
    hide AfterSale, Place, Stale, SaleFills;
    if open != [] {
      var h := open[0];
      var next := AfterSale(acc, prices, costs, h, now);
      FullSale(acc, prices, costs, h, now);
      MirrorsRest(acc, prices, costs, open, quote, now);
      FlattenEmpties(next, prices, costs, open[1..], quote, now);
      assert forall i | 0 < i < |open| :: open[i] == open[1..][i - 1];
    }
  }

  /** What a position brings at its last price, less the slippage of its symbol and the taker's fee. */
  function NetWorth(h: Holding, prices: map<Pair, Quote>, costs: Costs): real
    requires h.symbol in prices
  {
    var bps := if h.symbol in costs.bySymbol then costs.bySymbol[h.symbol] else costs.slippageBps;
    h.quantity * prices[h.symbol].price * (1.0 - bps / 10000.0) * (1.0 - costs.taker)
  }

  function NetWorths(open: seq<Holding>, prices: map<Pair, Quote>, costs: Costs): real
    requires forall i | 0 <= i < |open| :: open[i].symbol in prices
  {
    if open == [] then 0.0 else NetWorth(open[0], prices, costs) + NetWorths(open[1..], prices, costs)
  }

  lemma SaleBrings(acc: Account, prices: map<Pair, Quote>, costs: Costs, h: Holding, now: int)
    requires h.symbol in prices && !Stale(prices[h.symbol], costs, now)
    requires h.symbol.base != h.symbol.quote
    requires h.quantity == Get(acc.balances, h.symbol.base) > 0.0
    ensures Get(AfterSale(acc, prices, costs, h, now).balances, h.symbol.quote)
         == Get(acc.balances, h.symbol.quote) + NetWorth(h, prices, costs)
  {
    var sale := SellAll(h);
    var price := FillPrice(sale, costs, prices[h.symbol].price);
    var fee := Fee(sale, costs, price);
    assert Notional(price, h.quantity) - fee == NetWorth(h, prices, costs) by {
      PriceExactly(sale, costs, prices[h.symbol].price);
      FeeExactly(sale, costs, price);
      var after := 1.0 - SlippageOf(costs, h.symbol);
      assert price == prices[h.symbol].price * after;
      assert price * h.quantity == h.quantity * prices[h.symbol].price * after;
    }
    hide Notional, FillPrice, Fee, NetWorth;
  }

  /** With every price fresh, flattening brings exactly the net worth of the positions in cash. */
  lemma {:induction false} FlattenBrings(acc: Account, prices: map<Pair, Quote>, costs: Costs,
                                         open: seq<Holding>, quote: string, now: int)
    requires Mirrors(open, acc, quote) && AllFresh(open, prices, costs, now)
    ensures Get(AfterSales(acc, prices, costs, open, now).balances, quote)
         == Get(acc.balances, quote) + NetWorths(open, prices, costs)
    decreases open
  {
    hide AfterSale, Place, Stale, SaleFills, NetWorth;
    if open != [] {
      SaleBrings(acc, prices, costs, open[0], now);
      MirrorsRest(acc, prices, costs, open, quote, now);
      FlattenBrings(AfterSale(acc, prices, costs, open[0], now), prices, costs, open[1..], quote, now);
    }
  }

  lemma {:induction false} ExcludingAll(open: seq<Holding>, gone: set<Pair>)
    requires forall i | 0 <= i < |open| :: open[i].symbol in gone
    ensures Excluding(open, gone) == []
  {
    if open != [] {
      ExcludingAll(open[..|open| - 1], gone);
    }
  }

  /** A simulated account in good order: nothing negative, its positions are its coins, every price fresh. */
  ghost predicate InOrder(acc: Account, prices: map<Pair, Quote>, costs: Costs, open: seq<Holding>,
                          quote: string, now: int)
  {
    Solvent(acc, quote) && Mirrors(open, acc, quote) && AllFresh(open, prices, costs, now)
  }

  ghost predicate NoCoins(acc: Account, quote: string) {
    forall a | a != quote :: Get(acc.balances, a) == 0.0
  }

  /** Its flatten refuses nothing, and leaves no position and no coin. */
  lemma FlattenLeavesNothing(acc: Account, prices: map<Pair, Quote>, costs: Costs,
                             open: seq<Holding>, quote: string, now: int)
    requires InOrder(acc, prices, costs, open, quote, now)
    ensures RefusedIn(acc, prices, costs, open, now) == {}
    ensures Excluding(open, SoldIn(acc, prices, costs, open, now)) == []
    ensures NoCoins(AfterSales(acc, prices, costs, open, now), quote)
  {
    hide AfterSales, SoldIn, RefusedIn, Excluding;
    FlattenEmpties(acc, prices, costs, open, quote, now);
    ExcludingAll(open, SoldIn(acc, prices, costs, open, now));
  }

  // ----- trading -----

  function Answered(r: Reading, filled: bool): Reading {
    match r
    case Ready(a) => Ready(a.(placed := filled))
    case _ => r
  }

  /** The order one symbol sends to the exchange, if every gate lets it through. */
  function OrderFor(p: Portfolio, c: AgentConfig, symbol: Pair, r: Reading): Option<Order> {
    match OutcomeFor(p, c, symbol, Answered(r, true))
    case Entered(_, quantity, _, _, _, _) => Some(Order(symbol, Buy, Market, quantity, None))
    case Closed(_, quantity, _) => Some(Order(symbol, Sell, Market, quantity, None))
    case _ => None
  }

  function Fills(acc: Account, prices: map<Pair, Quote>, costs: Costs, order: Option<Order>, now: int): bool {
    order.Some? && Place(acc, prices, order.value, costs, now).1.Filled?
  }

  function AfterOrder(acc: Account, prices: map<Pair, Quote>, costs: Costs, order: Option<Order>, now: int): Account {
    if order.Some? then Place(acc, prices, order.value, costs, now).0 else acc
  }

  /**
   * Outside phone mode what a symbol's outcome says is what the exchange did: a position is entered or closed exactly
   * when an order of that symbol, side and quantity was filled, and no order that fills goes unrecorded.
   */
  lemma FilledExactly(p: Portfolio, acc: Account, prices: map<Pair, Quote>, costs: Costs, c: AgentConfig,
                      symbol: Pair, r: Reading, now: int)
    requires !c.phoneMode
    ensures var order := OrderFor(p, c, symbol, r);
      var filled := Fills(acc, prices, costs, order, now);
      var o := OutcomeFor(p, c, symbol, Answered(r, filled));
      && (o.Entered? <==> filled && order.value.side.Buy?)
      && (o.Closed? <==> filled && order.value.side.Sell?)
      && (o.Entered? ==> order == Some(Order(symbol, Buy, Market, o.quantity, None)))
      && (o.Closed? ==> order == Some(Order(symbol, Sell, Market, o.quantity, None)))
      && (order.None? ==> o == OutcomeFor(p, c, symbol, Answered(r, true)))
  {
    hide Place, EntryGate, IsOpen, Lookup;
    AnswerOnlyPlaces(p, c, symbol, r);
  }

  /** The exchange's answer decides between an outcome and an error, and nothing else. */
  lemma AnswerOnlyPlaces(p: Portfolio, c: AgentConfig, symbol: Pair, r: Reading)
    requires !c.phoneMode
    ensures var yes, no := OutcomeFor(p, c, symbol, Answered(r, true)), OutcomeFor(p, c, symbol, Answered(r, false));
      && (yes.Entered? || yes.Closed? ==> no == Raised)
      && (!yes.Entered? && !yes.Closed? ==> no == yes)
  {
    if r.Ready? {
      SameGate(p, c, symbol, r.analysis);
    }
    hide EntryGate, IsOpen, Lookup;
  }

  lemma SameGate(p: Portfolio, c: AgentConfig, symbol: Pair, a: Analysis)
    ensures EntryGate(p, c, symbol, a.(placed := true)) == EntryGate(p, c, symbol, a.(placed := false))
  {
    assert StopFor(c, a.(placed := true)) == StopFor(c, a.(placed := false));
    hide TradeVerdict, CorrelationPenalty, ExposedFraction, StopFor, TradeRisk, ProposedNotional, PositionSizing.SizeOf;
  }

  /** The readings of a pass with each order answered by the exchange, in turn. */
  function AnsweredWork(p: Portfolio, acc: Account, prices: map<Pair, Quote>, costs: Costs, c: AgentConfig,
                        work: seq<(Pair, Reading)>, now: int): (answered: seq<(Pair, Reading)>)
    ensures |answered| == |work|
    decreases work
  {
    if work == [] then []
    else
      var order := OrderFor(p, c, work[0].0, work[0].1);
      var r := Answered(work[0].1, Fills(acc, prices, costs, order, now));
      [(work[0].0, r)]
      + AnsweredWork(AfterOutcome(p, OutcomeFor(p, c, work[0].0, r)), AfterOrder(acc, prices, costs, order, now),
                     prices, costs, c, work[1..], now)
  }

  /** The exchange after those orders. */
  function AfterOrders(p: Portfolio, acc: Account, prices: map<Pair, Quote>, costs: Costs, c: AgentConfig,
                       work: seq<(Pair, Reading)>, now: int): Account
    decreases work
  {
    if work == [] then acc
    else
      var order := OrderFor(p, c, work[0].0, work[0].1);
      var r := Answered(work[0].1, Fills(acc, prices, costs, order, now));
      AfterOrders(AfterOutcome(p, OutcomeFor(p, c, work[0].0, r)), AfterOrder(acc, prices, costs, order, now),
                  prices, costs, c, work[1..], now)
  }

  /** One symbol: its order, if any, and what becomes of it. In phone mode the order would go to the phone instead. */
  method TradeSymbol(exchange: Exchange, state: PortfolioState, c: AgentConfig, symbol: Pair, r: Reading, now: int)
    returns (o: Outcome)
    requires !c.phoneMode
    modifies state, exchange`balances, exchange`costBasis
    ensures var p, acc, order := old(state.View()), old(exchange.View()), OrderFor(old(state.View()), c, symbol, r);
      var answered := Answered(r, Fills(acc, exchange.lastPrice, exchange.costs, order, now));
      && o == OutcomeFor(p, c, symbol, answered)
      && state.View() == AfterOutcome(p, o)
      && exchange.View() == AfterOrder(acc, exchange.lastPrice, exchange.costs, order, now)
  {
    hide OutcomeFor, AfterOutcome, Place;
    var order := OrderFor(state.View(), c, symbol, r);
    var filled := false;
    if order.Some? {
      var reply := exchange.CreateOrder(order.value, now);
      filled := reply.Filled?;
    }
    o := ProcessSymbol(state, c, symbol, Answered(r, filled));
  }

  /** The per-symbol loop, every order settled by the exchange. */
  method TradeSymbols(exchange: Exchange, state: PortfolioState, c: AgentConfig, work: seq<(Pair, Reading)>, now: int)
    returns (outcomes: seq<Outcome>)
    requires !c.phoneMode
    modifies state, exchange`balances, exchange`costBasis
    ensures var p, acc, prices, costs := old(state.View()), old(exchange.View()), exchange.lastPrice, exchange.costs;
      var answered := AnsweredWork(p, acc, prices, costs, c, work, now);
      && outcomes == Outcomes(p, c, answered) && state.View() == After(p, c, answered)
      && exchange.View() == AfterOrders(p, acc, prices, costs, c, work, now)
  {
    hide OutcomeFor, AfterOutcome, OrderFor, Fills, AfterOrder, Answered;
    ghost var p, acc, prices, costs := state.View(), exchange.View(), exchange.lastPrice, exchange.costs;
    ghost var all := AnsweredWork(p, acc, prices, costs, c, work, now);
    outcomes := [];
    assert work[0..] == work;
    for i := 0 to |work|
      invariant exchange.lastPrice == prices
      invariant After(p, c, all)
             == After(state.View(), c, AnsweredWork(state.View(), exchange.View(), prices, costs, c, work[i..], now))
      invariant Outcomes(p, c, all)
             == outcomes
                + Outcomes(state.View(), c,
                           AnsweredWork(state.View(), exchange.View(), prices, costs, c, work[i..], now))
      invariant AfterOrders(p, acc, prices, costs, c, work, now)
             == AfterOrders(state.View(), exchange.View(), prices, costs, c, work[i..], now)
    {
      assert work[i..][1..] == work[i + 1..];
      ghost var rest := AnsweredWork(state.View(), exchange.View(), prices, costs, c, work[i..], now);
      var o := TradeSymbol(exchange, state, c, work[i].0, work[i].1, now);
      assert rest[1..] == AnsweredWork(state.View(), exchange.View(), prices, costs, c, work[i + 1..], now);
      outcomes := outcomes + [o];
    }
  }

  // ----- the tick -----

  datatype PaperResult =
    | Passed(outcomes: seq<Outcome>)
    | Stopped(limit: Limit, haltNoted: bool, closed: set<Pair>, refused: set<Pair>)

  /**
   * A tick of a simulated account. When a limit that flattens is breached, nothing is refused and the tick ends with
   * no position and no coin, whether AI trading is on or off; no other tick sells what the symbols did not ask for.
   */
  method Tick(exchange: Exchange, state: PortfolioState, c: AgentConfig, work: seq<(Pair, Reading)>, now: int)
    returns (result: PaperResult)
    requires !c.phoneMode
    modifies state, exchange`balances, exchange`costBasis
    ensures var p, acc, prices, costs := old(state.View()), old(exchange.View()), exchange.lastPrice, exchange.costs;
      match Breach(p, c.limits)
      case None =>
        var answered := AnsweredWork(p, acc, prices, costs, c, work, now);
        && result == Passed(Outcomes(p, c, answered)) && state.View() == After(p, c, answered)
        && exchange.View() == AfterOrders(p, acc, prices, costs, c, work, now)
      case Some(limit) =>
        && result.Stopped? && result.limit == limit && (result.haltNoted <==> limit.MaxDrawdown?)
        && (ShouldFlatten(limit) ==>
              && exchange.View() == AfterSales(acc, prices, costs, p.open, now)
              && result.closed == SoldIn(acc, prices, costs, p.open, now)
              && result.refused == RefusedIn(acc, prices, costs, p.open, now)
              && state.openPositions == Excluding(p.open, result.closed))
        && (ShouldFlatten(limit) ==> forall quote | InOrder(acc, prices, costs, p.open, quote, now) ::
              result.refused == {} && state.openPositions == [] && NoCoins(exchange.View(), quote))
        && (!ShouldFlatten(limit) ==> state.View() == p && exchange.View() == acc)
        && state.tradesThisHour == p.tradesThisHour && state.lastEntryTime == p.lastEntryTime
  {
    hide OutcomeFor, DrawdownOf, DailyLossOf, AfterSales, SoldIn, RefusedIn, Excluding;
    hide AnsweredWork, AfterOrders, InOrder, NoCoins;
    var breach := Breach(state.View(), c.limits);
    if breach.None? {
      var outcomes := TradeSymbols(exchange, state, c, work, now);
      return Passed(outcomes);
    }
    ghost var acc, prices, costs, open := exchange.View(), exchange.lastPrice, exchange.costs, state.openPositions;
    var closed: set<Pair>, refused: set<Pair> := {}, {};
    if ShouldFlatten(breach.value) {
      closed, refused := FlattenOnPaper(exchange, state, now);
      forall quote | InOrder(acc, prices, costs, open, quote, now)
        ensures refused == {} && state.openPositions == [] && NoCoins(exchange.View(), quote)
      {
        FlattenLeavesNothing(acc, prices, costs, open, quote, now);
      }
    }
    return Stopped(breach.value, breach.value.MaxDrawdown?, closed, refused);
  }
}
