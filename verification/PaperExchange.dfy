/** The simulated exchange: balances, fees, slippage and weighted cost basis. */
module PaperExchange {
  import opened Common

  datatype OrderType = Market | Limit

  datatype Order = Order(symbol: Pair, side: Side, kind: OrderType, quantity: real, limitPrice: Option<real>)

  /** A last price; only time-zoned stamps can go stale. */
  datatype Quote = Quote(price: real, at: int, zoned: bool)

  datatype Costs = Costs(taker: real, maker: real, slippageBps: real, bySymbol: map<Pair, real>, maxAge: int)

  datatype Account = Account(balances: map<string, real>, basis: map<string, real>)

  datatype Reply =
    | Filled(price: real, fee: real)
    | BadQuantity | NoPrice | StalePrice | InsufficientBalance
    | Crashed  // the averaging divides by zero after the balances moved

  /** A holding of at most this much after a sell loses its cost basis. */
  const BASIS_DUST: real := 0.000000000001

  function Get(m: map<string, real>, k: string): real {
    if k in m then m[k] else 0.0
  }

  /** Price times quantity, named so that proofs can treat it as one term. */
  function Notional(price: real, quantity: real): real {
    price * quantity
  }

  /** Slippage as a fraction of the price. */
  function SlippageOf(costs: Costs, symbol: Pair): real {
    (if symbol in costs.bySymbol then costs.bySymbol[symbol] else costs.slippageBps) / 10000.0
  }

  function Slip(price: real, costs: Costs, symbol: Pair): real {
    price * SlippageOf(costs, symbol)
  }

  function FeeRate(costs: Costs, kind: OrderType): real {
    if kind.Limit? then costs.maker else costs.taker
  }

  /** A limit price counts only on a limit order, and only if it is given and not zero. */
  function ReferencePrice(o: Order, last: real): real {
    if o.kind.Limit? && o.limitPrice.Some? && o.limitPrice.value != 0.0 then o.limitPrice.value else last
  }

  function FillPrice(o: Order, costs: Costs, last: real): real {
    var p := ReferencePrice(o, last);
    var slip := Slip(p, costs, o.symbol);
    if o.side.Buy? then p + slip else p - slip
  }

  function Fee(o: Order, costs: Costs, fillPrice: real): real {
    Notional(fillPrice, o.quantity) * FeeRate(costs, o.kind)
  }

  /** Cash and base balances after a buy that is paid for. */
  function Bought(acc: Account, o: Order, cost: real): map<string, real> {
    var paid := acc.balances[o.symbol.quote := Get(acc.balances, o.symbol.quote) - cost];
    paid[o.symbol.base := Get(paid, o.symbol.base) + o.quantity]
  }

  function PriorQuantity(acc: Account, o: Order, cost: real): real {
    Get(acc.balances[o.symbol.quote := Get(acc.balances, o.symbol.quote) - cost], o.symbol.base)
  }

  function PriorBasis(acc: Account, o: Order, fillPrice: real): real {
    if o.symbol.base in acc.basis then acc.basis[o.symbol.base] else fillPrice
  }

  function BlendedBasis(acc: Account, o: Order, fillPrice: real, cost: real): real
    requires PriorQuantity(acc, o, cost) + o.quantity != 0.0
  {
    var prior := PriorQuantity(acc, o, cost);
    (Notional(PriorBasis(acc, o, fillPrice), prior) + cost) / (prior + o.quantity)
  }

  function AfterBuy(acc: Account, o: Order, fillPrice: real, fee: real): (Account, Reply) {
    var cost := Notional(fillPrice, o.quantity) + fee;
    if cost > Get(acc.balances, o.symbol.quote) then (acc, InsufficientBalance)
    else if PriorQuantity(acc, o, cost) + o.quantity == 0.0 then (acc.(balances := Bought(acc, o, cost)), Crashed)
    else (Account(Bought(acc, o, cost), acc.basis[o.symbol.base := BlendedBasis(acc, o, fillPrice, cost)]),
          Filled(fillPrice, fee))
  }

  function Sold(acc: Account, o: Order, proceeds: real): map<string, real> {
    var delivered := acc.balances[o.symbol.base := Get(acc.balances, o.symbol.base) - o.quantity];
    delivered[o.symbol.quote := Get(delivered, o.symbol.quote) + proceeds]
  }

  function AfterSell(acc: Account, o: Order, fillPrice: real, fee: real): (Account, Reply) {
    if o.quantity > Get(acc.balances, o.symbol.base) then (acc, InsufficientBalance)
    else
      var balances := Sold(acc, o, Notional(fillPrice, o.quantity) - fee);
      var basis := if balances[o.symbol.base] <= BASIS_DUST then acc.basis - {o.symbol.base} else acc.basis;
      (Account(balances, basis), Filled(fillPrice, fee))
  }

  predicate Stale(q: Quote, costs: Costs, now: int) {
    q.zoned && now - q.at > costs.maxAge
  }

  /** The account after an order at a known last price, and the answer. */
  function Settle(acc: Account, o: Order, costs: Costs, last: real): (Account, Reply) {
    var price := FillPrice(o, costs, last);
    if o.side.Buy? then AfterBuy(acc, o, price, Fee(o, costs, price))
    else AfterSell(acc, o, price, Fee(o, costs, price))
  }

  function Place(acc: Account, prices: map<Pair, Quote>, o: Order, costs: Costs, now: int): (Account, Reply) {
    if o.quantity <= 0.0 then (acc, BadQuantity)
    else if o.symbol !in prices then (acc, NoPrice)
    else if Stale(prices[o.symbol], costs, now) then (acc, StalePrice)
    else Settle(acc, o, costs, prices[o.symbol].price)
  }

  class Exchange {
    var balances: map<string, real>
    var costBasis: map<string, real>
    var lastPrice: map<Pair, Quote>
    const costs: Costs

    function View(): Account
      reads this
    {
      Account(balances, costBasis)
    }

    constructor (balances: map<string, real>, basis: map<string, real>, costs: Costs)
      ensures View() == Account(balances, basis) && lastPrice == map[] && this.costs == costs
    {
      this.balances, this.costBasis, this.costs := balances, basis, costs;
      lastPrice := map[];
    }

    method UpdatePrice(symbol: Pair, price: real, at: int, zoned: bool)
      modifies this`lastPrice
      ensures lastPrice == old(lastPrice)[symbol := Quote(price, at, zoned)]
    {
      lastPrice := lastPrice[symbol := Quote(price, at, zoned)];
    }

    method CreateOrder(o: Order, now: int) returns (reply: Reply)
      modifies this`balances, this`costBasis
      ensures (View(), reply) == Place(old(View()), lastPrice, o, costs, now)
    {
      hide FillPrice, Fee, Notional;
      if o.quantity <= 0.0 {
        return BadQuantity;
      }
      if o.symbol !in lastPrice {
        return NoPrice;
      }
      if Stale(lastPrice[o.symbol], costs, now) {
        return StalePrice;
      }
      var base, quote := o.symbol.base, o.symbol.quote;
      var fillPrice := FillPrice(o, costs, lastPrice[o.symbol].price);
      var notional := Notional(fillPrice, o.quantity);
      var fee := Fee(o, costs, fillPrice);
      if o.side.Buy? {
        var cost := notional + fee;
        var available := Get(balances, quote);
        if cost > available {
          return InsufficientBalance;
        }
        balances := balances[quote := available - cost];
        var priorQty := Get(balances, base);
        balances := balances[base := priorQty + o.quantity];
        var priorCost := Notional(if base in costBasis then costBasis[base] else fillPrice, priorQty);
        if priorQty + o.quantity == 0.0 {
          return Crashed;
        }
        assert (priorCost + cost) / (priorQty + o.quantity) == BlendedBasis(old(View()), o, fillPrice, cost);
        costBasis := costBasis[base := (priorCost + cost) / (priorQty + o.quantity)];
      } else {
        var availableBase := Get(balances, base);
        if o.quantity > availableBase {
          return InsufficientBalance;
        }
        var proceeds := notional - fee;
        balances := balances[base := availableBase - o.quantity];
        balances := balances[quote := Get(balances, quote) + proceeds];
        if balances[base] <= BASIS_DUST {
          costBasis := costBasis - {base};
        }
      }
      return Filled(fillPrice, fee);
    }
  }

  // ----- one order, exactly -----

  /** The price an order is filled at: a given limit price or the last price, moved against the trader. */
  lemma PriceExactly(o: Order, costs: Costs, last: real)
    ensures var at := match (o.kind, o.limitPrice)
                      case (Limit, Some(limit)) => if limit == 0.0 then last else limit
                      case _ => last;
      var bps := if o.symbol in costs.bySymbol then costs.bySymbol[o.symbol] else costs.slippageBps;
      FillPrice(o, costs, last) == if o.side.Buy? then at * (1.0 + bps / 10000.0) else at * (1.0 - bps / 10000.0)
  {
    var at, part := ReferencePrice(o, last), SlippageOf(costs, o.symbol);
    assert at * (1.0 + part) == at + at * part && at * (1.0 - part) == at - at * part;
  }

  /** And the fee on it: the maker's rate for a limit order, the taker's for a market order. */
  lemma FeeExactly(o: Order, costs: Costs, price: real)
    ensures Fee(o, costs, price)
         == price * o.quantity * (match o.kind case Limit => costs.maker case Market => costs.taker)
  {
  }

  /** An order can be filled: some quantity, at a known price that is not too old. */
  ghost predicate Priced(prices: map<Pair, Quote>, o: Order, costs: Costs, now: int) {
    && o.quantity > 0.0 && o.symbol in prices
    && (prices[o.symbol].zoned ==> now <= prices[o.symbol].at + costs.maxAge)
  }

  /** What is held, zero for what was never held. */
  ghost predicate Has(balances: map<string, real>, asset: string, amount: real) {
    if asset in balances then balances[asset] == amount else amount == 0.0
  }

  /** What the exchange asks for an order: its price, the fee, and the money that has to move. */
  predicate Asks(prices: map<Pair, Quote>, o: Order, costs: Costs, price: real, fee: real, notional: real) {
    o.symbol in prices ==>
      && price == FillPrice(o, costs, prices[o.symbol].price)
      && fee == Fee(o, costs, price) && notional == price * o.quantity
  }

  /**
   * A buy is filled exactly when it is priced and the quote currency covers its notional and its fee; it then moves
   * that money, adds the coins, and blends their cost into the basis. A refused one changes nothing.
   */
  lemma BuyExactly(acc: Account, prices: map<Pair, Quote>, o: Order, costs: Costs, now: int, cash: real, coins: real,
                   price: real, fee: real, notional: real)
    requires o.side.Buy? && o.symbol.base != o.symbol.quote && Asks(prices, o, costs, price, fee, notional)
    requires Has(acc.balances, o.symbol.quote, cash) && Has(acc.balances, o.symbol.base, coins) && coins >= 0.0
    ensures var (after, reply) := Place(acc, prices, o, costs, now);
      var cost := notional + fee;
      && (reply.Filled? <==> Priced(prices, o, costs, now) && cost <= cash)
      && (!reply.Filled? ==> after == acc)
      && (reply.Filled? ==>
            && reply == Filled(price, fee)
            && after.balances == acc.balances[o.symbol.quote := cash - cost][o.symbol.base := coins + o.quantity]
            && o.symbol.base in after.basis && after.basis == acc.basis[o.symbol.base := after.basis[o.symbol.base]]
            && after.basis[o.symbol.base] * (coins + o.quantity)
               == (if o.symbol.base in acc.basis then acc.basis[o.symbol.base] else price) * coins + cost)
  {
    if Priced(prices, o, costs, now) {
      var cost := notional + fee;
      assert Notional(price, o.quantity) == notional;
      BlendExactly(acc, o, price, cost, coins);
      hide FillPrice, Fee, Notional, Slip, BlendedBasis;
      assert Bought(acc, o, cost) == acc.balances[o.symbol.quote := cash - cost][o.symbol.base := coins + o.quantity];
    }
  }

  lemma BlendExactly(acc: Account, o: Order, price: real, cost: real, coins: real)
    requires o.symbol.base != o.symbol.quote && o.quantity > 0.0
    requires Has(acc.balances, o.symbol.base, coins) && coins >= 0.0
    ensures PriorQuantity(acc, o, cost) == coins
    ensures BlendedBasis(acc, o, price, cost) * (coins + o.quantity)
         == (if o.symbol.base in acc.basis then acc.basis[o.symbol.base] else price) * coins + cost
  {
    QuotientTimes(Notional(PriorBasis(acc, o, price), coins) + cost, coins + o.quantity);
  }

  /**
   * A sell is filled exactly when it is priced and the coins are there; it then delivers them, brings the notional
   * less the fee, and drops the basis of what is left exactly when that is dust. A refused one changes nothing.
   */
  lemma SellExactly(acc: Account, prices: map<Pair, Quote>, o: Order, costs: Costs, now: int, cash: real, coins: real,
                    price: real, fee: real, notional: real)
    requires o.side.Sell? && o.symbol.base != o.symbol.quote && Asks(prices, o, costs, price, fee, notional)
    requires Has(acc.balances, o.symbol.quote, cash) && Has(acc.balances, o.symbol.base, coins)
    ensures var (after, reply) := Place(acc, prices, o, costs, now);
      && (reply.Filled? <==> Priced(prices, o, costs, now) && o.quantity <= coins)
      && (!reply.Filled? ==> after == acc)
      && (reply.Filled? ==>
            && reply == Filled(price, fee)
            && after.balances
               == acc.balances[o.symbol.base := coins - o.quantity][o.symbol.quote := cash + (notional - fee)]
            && after.basis == if coins - o.quantity <= 0.000000000001 then acc.basis - {o.symbol.base} else acc.basis)
  {
    if Priced(prices, o, costs, now) {
      assert Notional(price, o.quantity) == notional;
      hide FillPrice, Fee, Notional, Slip;
      assert Sold(acc, o, notional - fee)
          == acc.balances[o.symbol.base := coins - o.quantity][o.symbol.quote := cash + (notional - fee)];
    }
  }

  // ----- runs -----

  datatype Event = PriceUpdate(symbol: Pair, quote: Quote) | OrderAt(order: Order, now: int)

  datatype State = State(acc: Account, prices: map<Pair, Quote>)

  function Next(s: State, e: Event, costs: Costs): State {
    match e
    case PriceUpdate(symbol, quote) => s.(prices := s.prices[symbol := quote])
    case OrderAt(o, now) => s.(acc := Place(s.acc, s.prices, o, costs, now).0)
  }

  function Run(s: State, events: seq<Event>, costs: Costs): State
    decreases events
  {
    if events == [] then s else Run(Next(s, events[0], costs), events[1..], costs)
  }

  /** Fees and slippage are fractions. */
  ghost predicate SaneCosts(costs: Costs) {
    && 0.0 <= costs.taker <= 1.0 && 0.0 <= costs.maker <= 1.0
    && forall symbol :: 0.0 <= SlippageOf(costs, symbol) < 1.0
  }

  /** Prices are positive and every order trades a coin of the run against its one quote currency. */
  ghost predicate SaneEvent(e: Event, quote: string, assets: seq<string>) {
    match e
    case PriceUpdate(_, q) => q.price > 0.0
    case OrderAt(o, _) =>
      && o.symbol.quote == quote && o.symbol.base in assets
      && (o.limitPrice.Some? ==> o.limitPrice.value >= 0.0)
  }

  ghost predicate Distinct(assets: seq<string>) {
    forall i, j | 0 <= i < j < |assets| :: assets[i] != assets[j]
  }

  /** Nothing is negative, and a holding that is more than dust has a cost basis. */
  ghost predicate Solvent(acc: Account, quote: string) {
    && (forall a | a in acc.balances :: acc.balances[a] >= 0.0)
    && (forall a | a in acc.balances && a != quote && acc.balances[a] > BASIS_DUST :: a in acc.basis)
    && (forall a | a in acc.basis :: acc.basis[a] > 0.0)
  }

  ghost predicate SaneState(s: State, quote: string) {
    Solvent(s.acc, quote) && forall p | p in s.prices :: s.prices[p].price > 0.0
  }

  lemma NotionalSign(price: real, quantity: real)
    requires price > 0.0 && quantity > 0.0
    ensures Notional(price, quantity) > 0.0
  {
  }

  lemma FillIsPositive(o: Order, costs: Costs, last: real)
    requires SaneCosts(costs) && last > 0.0 && o.quantity > 0.0
    requires o.limitPrice.Some? ==> o.limitPrice.value >= 0.0
    ensures FillPrice(o, costs, last) > 0.0
    ensures 0.0 <= Fee(o, costs, FillPrice(o, costs, last)) <= Notional(FillPrice(o, costs, last), o.quantity)
  {
    var p, s := ReferencePrice(o, last), SlippageOf(costs, o.symbol);
    var price := FillPrice(o, costs, last);
    assert 0.0 <= s < 1.0;
    assert price > 0.0 by {
      if o.side.Buy? {
        assert p * s >= 0.0;
      } else {
        ProductSign(p, 1.0 - s);
        assert price == p * (1.0 - s);
      }
    }
    NotionalSign(price, o.quantity);
    var notional, rate := Notional(price, o.quantity), FeeRate(costs, o.kind);
    FractionAtMost(notional, rate, notional * rate);
    assert notional * rate >= 0.0;
  }

  lemma BoughtBalances(acc: Account, o: Order, cost: real)
    requires o.symbol.base != o.symbol.quote
    ensures PriorQuantity(acc, o, cost) == Get(acc.balances, o.symbol.base)
    ensures Get(Bought(acc, o, cost), o.symbol.quote) == Get(acc.balances, o.symbol.quote) - cost
    ensures Get(Bought(acc, o, cost), o.symbol.base) == Get(acc.balances, o.symbol.base) + o.quantity
    ensures forall a | a != o.symbol.base && a != o.symbol.quote :: Get(Bought(acc, o, cost), a) == Get(acc.balances, a)
  {
  }

  lemma SoldBalances(acc: Account, o: Order, proceeds: real)
    requires o.symbol.base != o.symbol.quote
    ensures o.symbol.base in Sold(acc, o, proceeds)
    ensures Get(Sold(acc, o, proceeds), o.symbol.quote) == Get(acc.balances, o.symbol.quote) + proceeds
    ensures Get(Sold(acc, o, proceeds), o.symbol.base) == Get(acc.balances, o.symbol.base) - o.quantity
    ensures forall a | a != o.symbol.base && a != o.symbol.quote ::
      Get(Sold(acc, o, proceeds), a) == Get(acc.balances, a)
  {
  }

  lemma BlendedBasisFacts(acc: Account, o: Order, price: real, cost: real)
    requires Solvent(acc, o.symbol.quote) && o.symbol.base != o.symbol.quote && o.quantity > 0.0
    ensures PriorQuantity(acc, o, cost) + o.quantity != 0.0
    ensures Notional(BlendedBasis(acc, o, price, cost), Get(acc.balances, o.symbol.base) + o.quantity)
         == Notional(PriorBasis(acc, o, price), Get(acc.balances, o.symbol.base)) + cost
    ensures cost > 0.0 && price > 0.0 ==> BlendedBasis(acc, o, price, cost) > 0.0
  {
  }

  lemma BuyKeepsSolvent(acc: Account, o: Order, price: real, fee: real)
    requires Solvent(acc, o.symbol.quote) && o.symbol.base != o.symbol.quote
    requires o.quantity > 0.0 && price > 0.0 && fee >= 0.0
    ensures Solvent(AfterBuy(acc, o, price, fee).0, o.symbol.quote)
    ensures !AfterBuy(acc, o, price, fee).1.Crashed?
  {
    hide BlendedBasis, Bought, PriorQuantity, Notional;
    var cost := Notional(price, o.quantity) + fee;
    NotionalSign(price, o.quantity);
    BoughtBalances(acc, o, cost);
    BlendedBasisFacts(acc, o, price, cost);
    var after := AfterBuy(acc, o, price, fee).0;
    forall a | a in after.balances
      ensures after.balances[a] >= 0.0
      ensures a != o.symbol.quote && after.balances[a] > BASIS_DUST ==> a in after.basis
    {
      assert after.balances[a] == Get(after.balances, a);
    }
  }

  lemma SellKeepsSolvent(acc: Account, o: Order, price: real, fee: real)
    requires Solvent(acc, o.symbol.quote) && o.symbol.base != o.symbol.quote
    requires o.quantity > 0.0 && 0.0 <= fee <= Notional(price, o.quantity)
    ensures Solvent(AfterSell(acc, o, price, fee).0, o.symbol.quote)
    ensures !AfterSell(acc, o, price, fee).1.Crashed?
  {
  }

  lemma StepKeepsSane(s: State, e: Event, costs: Costs, quote: string, assets: seq<string>)
    requires SaneCosts(costs) && SaneEvent(e, quote, assets) && quote !in assets
    requires SaneState(s, quote)
    ensures SaneState(Next(s, e, costs), quote)
  {
    hide FillPrice, Fee, AfterBuy, AfterSell, SlippageOf, Notional;
    if e.OrderAt? && e.order.quantity > 0.0 && e.order.symbol in s.prices {
      var o := e.order;
      var last := s.prices[o.symbol].price;
      FillIsPositive(o, costs, last);
      var price := FillPrice(o, costs, last);
      BuyKeepsSolvent(s.acc, o, price, Fee(o, costs, price));
      SellKeepsSolvent(s.acc, o, price, Fee(o, costs, price));
    }
  }

  // ----- no balance goes negative, with or without a recorded cost basis -----

  ghost predicate NoDebt(balances: map<string, real>) {
    forall a | a in balances :: balances[a] >= 0.0
  }

  ghost predicate PositivePrices(prices: map<Pair, Quote>) {
    forall p | p in prices :: prices[p].price > 0.0
  }

  lemma BuyKeepsNoDebt(acc: Account, o: Order, price: real, fee: real)
    requires NoDebt(acc.balances) && o.symbol.base != o.symbol.quote && o.quantity > 0.0
    requires Notional(price, o.quantity) + fee >= 0.0
    ensures NoDebt(AfterBuy(acc, o, price, fee).0.balances)
  {
    hide BlendedBasis, Bought, PriorQuantity, Notional;
    var cost := Notional(price, o.quantity) + fee;
    BoughtBalances(acc, o, cost);
    var after := AfterBuy(acc, o, price, fee).0.balances;
    forall a | a in after
      ensures after[a] >= 0.0
    {
      assert after[a] == Get(after, a);
    }
  }

  lemma SellKeepsNoDebt(acc: Account, o: Order, price: real, fee: real)
    requires NoDebt(acc.balances) && o.symbol.base != o.symbol.quote
    requires o.quantity > 0.0 && fee <= Notional(price, o.quantity)
    ensures NoDebt(AfterSell(acc, o, price, fee).0.balances)
  {
    hide Sold, Notional;
    SoldBalances(acc, o, Notional(price, o.quantity) - fee);
    var after := AfterSell(acc, o, price, fee).0.balances;
    forall a | a in after
      ensures after[a] >= 0.0
    {
      assert after[a] == Get(after, a);
    }
  }

  lemma StepKeepsNoDebt(s: State, e: Event, costs: Costs, quote: string, assets: seq<string>)
    requires SaneCosts(costs) && SaneEvent(e, quote, assets) && quote !in assets
    requires NoDebt(s.acc.balances) && PositivePrices(s.prices)
    ensures NoDebt(Next(s, e, costs).acc.balances) && PositivePrices(Next(s, e, costs).prices)
  {
    hide FillPrice, Fee, AfterBuy, AfterSell, SlippageOf, Notional;
    if e.OrderAt? && e.order.quantity > 0.0 && e.order.symbol in s.prices {
      var o := e.order;
      var last := s.prices[o.symbol].price;
      FillIsPositive(o, costs, last);
      var price := FillPrice(o, costs, last);
      NotionalSign(price, o.quantity);
      BuyKeepsNoDebt(s.acc, o, price, Fee(o, costs, price));
      SellKeepsNoDebt(s.acc, o, price, Fee(o, costs, price));
    }
  }

  /** No run of orders and price updates takes a balance below zero. */
  lemma {:induction false} NeverNegative(s: State, events: seq<Event>, costs: Costs, quote: string, assets: seq<string>)
    requires SaneCosts(costs) && quote !in assets && NoDebt(s.acc.balances) && PositivePrices(s.prices)
    requires forall i | 0 <= i < |events| :: SaneEvent(events[i], quote, assets)
    ensures NoDebt(Run(s, events, costs).acc.balances)
    decreases events
  {
    hide NoDebt, PositivePrices, SaneEvent, SaneCosts;
    if events != [] {
      StepKeepsNoDebt(s, events[0], costs, quote, assets);
      NeverNegative(Next(s, events[0], costs), events[1..], costs, quote, assets);
    }
  }

  // ----- sums over the coins of a run -----

  function SumOver(m: map<string, real>, assets: seq<string>): real {
    if assets == [] then 0.0 else Get(m, assets[0]) + SumOver(m, assets[1..])
  }

  lemma {:induction false} SumSame(f: map<string, real>, g: map<string, real>, assets: seq<string>)
    requires forall a | a in assets :: Get(f, a) == Get(g, a)
    ensures SumOver(f, assets) == SumOver(g, assets)
  {
    if assets != [] {
      SumSame(f, g, assets[1..]);
    }
  }

  lemma {:induction false} SumChange(f: map<string, real>, g: map<string, real>, assets: seq<string>, changed: string)
    requires Distinct(assets) && changed in assets
    requires forall a | a in assets && a != changed :: Get(f, a) == Get(g, a)
    ensures SumOver(g, assets) == SumOver(f, assets) - Get(f, changed) + Get(g, changed)
  {
    if assets[0] == changed {
      assert forall a | a in assets[1..] :: a != changed;
      SumSame(f, g, assets[1..]);
    } else {
      SumChange(f, g, assets[1..], changed);
    }
  }

  // ----- cost-basis books -----

  function AtCost(acc: Account, assets: seq<string>): map<string, real> {
    map a | a in assets :: Notional(Get(acc.basis, a), Get(acc.balances, a))
  }

  /** Cash plus every coin at its cost basis. */
  function Books(acc: Account, quote: string, assets: seq<string>): real {
    Get(acc.balances, quote) + SumOver(AtCost(acc, assets), assets)
  }

  /** The profit the store records for a sell: only against a known, positive cost basis. */
  function RecordedProfit(acc: Account, o: Order, reply: Reply): real {
    var entry := Get(acc.basis, o.symbol.base);
    if o.side.Sell? && reply.Filled? && entry > 0.0 then Notional(reply.price - entry, o.quantity) - reply.fee else 0.0
  }

  /**
   * What the books gain besides recorded profit: unbased dust given a value by
   * a buy, unbased dust sold, or the basis value of dust dropped by a full sell.
   */
  function DustValue(acc: Account, o: Order, reply: Reply): real {
    var base := o.symbol.base;
    if !reply.Filled? then 0.0
    else if o.side.Buy? then (if base in acc.basis then 0.0 else Notional(reply.price, Get(acc.balances, base)))
    else if base !in acc.basis then Notional(reply.price, o.quantity) - reply.fee
    else
      var left := Get(acc.balances, base) - o.quantity;
      if left <= BASIS_DUST then -Notional(acc.basis[base], left) else 0.0
  }

  lemma BuyBooks(acc: Account, o: Order, price: real, fee: real, assets: seq<string>)
    requires Solvent(acc, o.symbol.quote) && Distinct(assets)
    requires o.symbol.base in assets && o.symbol.quote !in assets
    requires o.side.Buy? && o.quantity > 0.0
    ensures var (after, reply) := AfterBuy(acc, o, price, fee);
      Books(after, o.symbol.quote, assets) == Books(acc, o.symbol.quote, assets) + DustValue(acc, o, reply)
  {
    hide BlendedBasis, Bought, PriorQuantity, Notional;
    var (after, reply) := AfterBuy(acc, o, price, fee);
    var base, cost := o.symbol.base, Notional(price, o.quantity) + fee;
    BoughtBalances(acc, o, cost);
    BlendedBasisFacts(acc, o, price, cost);
    if reply.Filled? {
      SumChange(AtCost(acc, assets), AtCost(after, assets), assets, base);
      NotionalOfNone(Get(acc.balances, base));
      assert Get(AtCost(acc, assets), base) == Notional(Get(acc.basis, base), Get(acc.balances, base));
    }
  }

  lemma NotionalOfNone(x: real)
    ensures Notional(0.0, x) == 0.0 && Notional(x, 0.0) == 0.0
  {
  }

  lemma NotionalSplits(price: real, other: real, quantity: real, more: real)
    ensures Notional(price, quantity + more) == Notional(price, quantity) + Notional(price, more)
    ensures Notional(price, quantity - more) == Notional(price, quantity) - Notional(price, more)
    ensures Notional(price + other, quantity) == Notional(price, quantity) + Notional(other, quantity)
    ensures Notional(price - other, quantity) == Notional(price, quantity) - Notional(other, quantity)
  {
  }

  lemma SellBooks(acc: Account, o: Order, price: real, fee: real, assets: seq<string>)
    requires Solvent(acc, o.symbol.quote) && Distinct(assets)
    requires o.symbol.base in assets && o.symbol.quote !in assets
    requires o.side.Sell? && o.quantity > 0.0
    ensures var (after, reply) := AfterSell(acc, o, price, fee);
      Books(after, o.symbol.quote, assets)
        == Books(acc, o.symbol.quote, assets) + RecordedProfit(acc, o, reply) + DustValue(acc, o, reply)
  {
    hide Sold, Notional;
    var (after, reply) := AfterSell(acc, o, price, fee);
    if reply.Filled? {
      var base, proceeds := o.symbol.base, Notional(price, o.quantity) - fee;
      var held, entry := Get(acc.balances, base), Get(acc.basis, base);
      SoldBalances(acc, o, proceeds);
      SumChange(AtCost(acc, assets), AtCost(after, assets), assets, base);
      NotionalSplits(entry, 0.0, held, o.quantity);
      NotionalSplits(price, entry, o.quantity, 0.0);
      NotionalOfNone(held);
      NotionalOfNone(held - o.quantity);
      assert Get(AtCost(acc, assets), base) == Notional(entry, held);
      assert base !in acc.basis ==> entry == 0.0 && Get(AtCost(after, assets), base) == 0.0;
    }
  }

  function ProfitOf(s: State, e: Event, costs: Costs): real {
    if e.OrderAt? then RecordedProfit(s.acc, e.order, Place(s.acc, s.prices, e.order, costs, e.now).1) else 0.0
  }

  function DustOf(s: State, e: Event, costs: Costs): real {
    if e.OrderAt? then DustValue(s.acc, e.order, Place(s.acc, s.prices, e.order, costs, e.now).1) else 0.0
  }

  function TotalProfit(s: State, events: seq<Event>, costs: Costs): real
    decreases events
  {
    if events == [] then 0.0
    else ProfitOf(s, events[0], costs) + TotalProfit(Next(s, events[0], costs), events[1..], costs)
  }

  function TotalDust(s: State, events: seq<Event>, costs: Costs): real
    decreases events
  {
    if events == [] then 0.0 else DustOf(s, events[0], costs) + TotalDust(Next(s, events[0], costs), events[1..], costs)
  }

  lemma StepBooks(s: State, e: Event, costs: Costs, quote: string, assets: seq<string>)
    requires SaneEvent(e, quote, assets) && quote !in assets && Distinct(assets) && SaneState(s, quote)
    ensures Books(Next(s, e, costs).acc, quote, assets)
         == Books(s.acc, quote, assets) + ProfitOf(s, e, costs) + DustOf(s, e, costs)
  {
    hide FillPrice, Fee, AfterBuy, AfterSell, Books, Notional;
    if e.OrderAt? && e.order.quantity > 0.0 && e.order.symbol in s.prices {
      var o := e.order;
      var price := FillPrice(o, costs, s.prices[o.symbol].price);
      if o.side.Buy? {
        BuyBooks(s.acc, o, price, Fee(o, costs, price), assets);
      } else {
        SellBooks(s.acc, o, price, Fee(o, costs, price), assets);
      }
    }
  }

  /** Over any run: cash plus coins at cost basis moves by exactly the recorded profits and the dust terms. */
  lemma {:induction false} BooksBalance(s: State, events: seq<Event>, costs: Costs, quote: string, assets: seq<string>)
    requires SaneCosts(costs) && quote !in assets && Distinct(assets) && SaneState(s, quote)
    requires forall i | 0 <= i < |events| :: SaneEvent(events[i], quote, assets)
    ensures Books(Run(s, events, costs).acc, quote, assets)
         == Books(s.acc, quote, assets) + TotalProfit(s, events, costs) + TotalDust(s, events, costs)
    decreases events
  {
    hide Books, ProfitOf, DustOf, Next;
    if events != [] {
      StepKeepsSane(s, events[0], costs, quote, assets);
      StepBooks(s, events[0], costs, quote, assets);
      BooksBalance(Next(s, events[0], costs), events[1..], costs, quote, assets);
    }
  }

  lemma WorthOfDust(x: real, price: real)
    requires 0.0 <= x <= BASIS_DUST && price > 0.0
    ensures 0.0 <= Notional(price, x) <= Notional(price, BASIS_DUST)
  {
  }

  /** Each dust term is worth at most a dust quantity, at the fill price or at the cost basis. */
  lemma DustIsDust(acc: Account, o: Order, reply: Reply)
    requires Solvent(acc, o.symbol.quote) && o.symbol.base != o.symbol.quote
    requires o.quantity > 0.0 && reply.Filled? && reply.price > 0.0
    requires 0.0 <= reply.fee <= Notional(reply.price, o.quantity)
    requires o.side.Sell? ==> o.quantity <= Get(acc.balances, o.symbol.base)
    ensures -Notional(Get(acc.basis, o.symbol.base), BASIS_DUST) <= DustValue(acc, o, reply)
    ensures DustValue(acc, o, reply) <= Notional(reply.price, BASIS_DUST)
  {
    hide Notional;
    var base := o.symbol.base;
    var held, entry := Get(acc.balances, base), Get(acc.basis, base);
    NotionalOfNone(BASIS_DUST);
    if base !in acc.basis {
      WorthOfDust(held, reply.price);
      if o.side.Sell? {
        WorthOfDust(o.quantity, reply.price);
      }
    } else {
      WorthOfDust(0.0, reply.price);
      WorthOfDust(0.0, entry);
      if o.side.Sell? && held - o.quantity <= BASIS_DUST {
        WorthOfDust(held - o.quantity, entry);
      }
    }
  }

  /** So every filled order of a run moves the books by its recorded profit, up to dust. */
  lemma OrderMovesBooksByProfit(s: State, o: Order, now: int, costs: Costs, quote: string, assets: seq<string>)
    requires SaneCosts(costs) && SaneEvent(OrderAt(o, now), quote, assets)
    requires quote !in assets && Distinct(assets) && SaneState(s, quote)
    ensures var (after, reply) := Place(s.acc, s.prices, o, costs, now);
      reply.Filled? ==>
        var gain := Books(after, quote, assets) - Books(s.acc, quote, assets) - RecordedProfit(s.acc, o, reply);
        -Notional(Get(s.acc.basis, o.symbol.base), BASIS_DUST) <= gain <= Notional(reply.price, BASIS_DUST)
  {
    hide FillPrice, Fee, SlippageOf, Notional, Books, RecordedProfit, DustValue, BlendedBasis, Bought, Sold;
    var reply := Place(s.acc, s.prices, o, costs, now).1;
    if reply.Filled? {
      FillIsPositive(o, costs, s.prices[o.symbol].price);
      StepBooks(s, OrderAt(o, now), costs, quote, assets);
      DustIsDust(s.acc, o, reply);
    }
  }

  // ----- mark-to-market -----

  function AtMarket(acc: Account, prices: map<Pair, Quote>, quote: string, assets: seq<string>): map<string, real> {
    map a | a in assets ::
      if Pair(a, quote) in prices then Notional(prices[Pair(a, quote)].price, Get(acc.balances, a)) else 0.0
  }

  /** Cash plus every coin at its last price. */
  function Equity(acc: Account, prices: map<Pair, Quote>, quote: string, assets: seq<string>): real {
    Get(acc.balances, quote) + SumOver(AtMarket(acc, prices, quote, assets), assets)
  }

  /** Fee plus slippage of a filled market order. */
  function Friction(o: Order, costs: Costs, last: real, reply: Reply): real {
    if reply.Filled? then Notional(Slip(last, costs, o.symbol), o.quantity) + reply.fee else 0.0
  }

  lemma SettleFriction(acc: Account, prices: map<Pair, Quote>, o: Order, costs: Costs, assets: seq<string>)
    requires o.kind.Market? && o.symbol in prices && o.quantity > 0.0
    requires Distinct(assets) && o.symbol.base in assets && o.symbol.quote !in assets
    ensures var (after, reply) := Settle(acc, o, costs, prices[o.symbol].price);
      !reply.Crashed? ==>
        Equity(after, prices, o.symbol.quote, assets)
          == Equity(acc, prices, o.symbol.quote, assets) - Friction(o, costs, prices[o.symbol].price, reply)
  {
    hide Slip, Fee, Notional, Bought, Sold, PriorQuantity, BlendedBasis;
    var (after, reply) := Settle(acc, o, costs, prices[o.symbol].price);
    if reply.Filled? {
      var base, quote, last := o.symbol.base, o.symbol.quote, prices[o.symbol].price;
      assert Pair(base, quote) == o.symbol;
      var held, notional := Get(acc.balances, base), Notional(reply.price, o.quantity);
      NotionalSplits(last, Slip(last, costs, o.symbol), o.quantity, 0.0);
      NotionalSplits(last, 0.0, held, o.quantity);
      BoughtBalances(acc, o, notional + reply.fee);
      SoldBalances(acc, o, notional - reply.fee);
      SumChange(AtMarket(acc, prices, quote, assets), AtMarket(after, prices, quote, assets), assets, base);
      assert Get(AtMarket(acc, prices, quote, assets), base) == Notional(last, held);
    }
  }

  function FrictionOf(s: State, e: Event, costs: Costs): real {
    if e.OrderAt? && e.order.symbol in s.prices
    then Friction(e.order, costs, s.prices[e.order.symbol].price, Place(s.acc, s.prices, e.order, costs, e.now).1)
    else 0.0
  }

  function TotalFriction(s: State, events: seq<Event>, costs: Costs): real
    decreases events
  {
    if events == [] then 0.0
    else FrictionOf(s, events[0], costs) + TotalFriction(Next(s, events[0], costs), events[1..], costs)
  }

  ghost predicate MarketOrder(e: Event) {
    e.OrderAt? && e.order.kind.Market?
  }

  /** At fixed prices any run of market orders costs exactly its fees and slippage. */
  lemma {:induction false} OnlyFrictionIsLost(s: State, events: seq<Event>, costs: Costs, quote: string,
                                              assets: seq<string>)
    requires SaneCosts(costs) && quote !in assets && Distinct(assets) && SaneState(s, quote)
    requires forall i | 0 <= i < |events| :: SaneEvent(events[i], quote, assets) && MarketOrder(events[i])
    ensures Equity(Run(s, events, costs).acc, s.prices, quote, assets)
         == Equity(s.acc, s.prices, quote, assets) - TotalFriction(s, events, costs)
    decreases events
  {
    hide Equity, Slip, FillPrice, Fee, AfterBuy, AfterSell, Friction, Notional;
    if events != [] {
      var o := events[0].order;
      if o.quantity > 0.0 && o.symbol in s.prices {
        SettleFriction(s.acc, s.prices, o, costs, assets);
        NoCrash(s, events[0], costs, quote, assets);
      }
      StepKeepsSane(s, events[0], costs, quote, assets);
      FrictionWhenRejected(o, costs);
      OnlyFrictionIsLost(Next(s, events[0], costs), events[1..], costs, quote, assets);
    }
  }

  lemma FrictionWhenRejected(o: Order, costs: Costs)
    ensures forall last, reply: Reply :: !reply.Filled? ==> Friction(o, costs, last, reply) == 0.0
  {
  }

  lemma NoCrash(s: State, e: Event, costs: Costs, quote: string, assets: seq<string>)
    requires SaneCosts(costs) && SaneEvent(e, quote, assets) && quote !in assets && SaneState(s, quote) && e.OrderAt?
    ensures !Place(s.acc, s.prices, e.order, costs, e.now).1.Crashed?
  {
  }
}

/** Measured round-trip costs per coin and the per-side slippage that reproduces them. */
module RouteCosts {
  import opened Common
  import opened PaperExchange

  const ROUND_TRIP_COST: map<Pair, real> := map[
    Pair("WETH", "USDC") := 0.0037,
    Pair("LINK", "USDC") := 0.0063,
    Pair("WMATIC", "USDC") := 0.0104,
    Pair("WBTC", "USDC") := 0.0112,
    Pair("AAVE", "USDC") := 0.0122,
    Pair("UNI", "USDC") := 0.0204,
    Pair("LDO", "USDC") := 0.0437]

  function SlippageBps(taker: real): map<Pair, real> {
    map symbol | symbol in ROUND_TRIP_COST :: (ROUND_TRIP_COST[symbol] / 2.0 - taker) * 10000.0
  }

  /** Buying and selling the same quantity of a routed coin at one price loses exactly its measured round-trip cost. */
  lemma RoundTripLosesItsCost(acc: Account, costs: Costs, symbol: Pair, quantity: real, price: real)
    requires symbol in ROUND_TRIP_COST && costs.bySymbol == SlippageBps(costs.taker)
    requires quantity > 0.0 && Get(acc.balances, symbol.base) >= 0.0
    requires var buy := Order(symbol, Buy, Market, quantity, None);
      Settle(acc, buy, costs, price).1.Filled?
    ensures var buy := Order(symbol, Buy, Market, quantity, None);
      var sell := Order(symbol, Sell, Market, quantity, None);
      var (held, _) := Settle(acc, buy, costs, price);
      var (after, reply) := Settle(held, sell, costs, price);
      && reply.Filled?
      && Get(after.balances, symbol.base) == Get(acc.balances, symbol.base)
      && Get(after.balances, symbol.quote)
           == Get(acc.balances, symbol.quote) - Notional(ROUND_TRIP_COST[symbol] * price, quantity)
  {
    hide Slip, FeeRate, Notional, Bought, Sold, PriorQuantity, BlendedBasis;
    var buy, sell := Order(symbol, Buy, Market, quantity, None), Order(symbol, Sell, Market, quantity, None);
    var (held, bought) := Settle(acc, buy, costs, price);
    var up, down := FillPrice(buy, costs, price), FillPrice(sell, costs, price);
    var spent, got := Notional(up, quantity) + Fee(buy, costs, up), Notional(down, quantity) - Fee(sell, costs, down);
    SlippageIsHalf(costs, symbol);
    BoughtBalances(acc, buy, spent);
    SoldBalances(held, sell, got);
    NotionalSplits(price, Slip(price, costs, symbol), quantity, 0.0);
    FeesAndSlip(price, costs, symbol, quantity, spent - got);
  }

  lemma SlippageIsHalf(costs: Costs, symbol: Pair)
    requires symbol in ROUND_TRIP_COST && costs.bySymbol == SlippageBps(costs.taker)
    ensures SlippageOf(costs, symbol) + costs.taker == ROUND_TRIP_COST[symbol] / 2.0
    ensures symbol.base != symbol.quote
  {
  }

  /** The two fees and the two slips of a round trip add up to its cost. */
  lemma FeesAndSlip(p: real, costs: Costs, symbol: Pair, q: real, lost: real)
    requires symbol in ROUND_TRIP_COST && SlippageOf(costs, symbol) + costs.taker == ROUND_TRIP_COST[symbol] / 2.0
    requires var slip := Notional(Slip(p, costs, symbol), q);
      lost == 2.0 * slip
              + (Notional(p, q) + slip) * FeeRate(costs, Market) + (Notional(p, q) - slip) * FeeRate(costs, Market)
    ensures lost == Notional(ROUND_TRIP_COST[symbol] * p, q)
  {
  }
}
