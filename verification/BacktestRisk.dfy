/**
 * What a backtest can lose. Exactly which settings keep equity from going negative, and with it the reported
 * drawdown right; and what fees do to a run.
 */
module BacktestRisk {
  import opened Common
  import opened EquityCurve
  import opened PositionSizing
  import opened Backtest
  import Candles
  import Indicators

  // ----- spot accounts within their stake -----

  /** The largest part of the equity that one spot entry can cost, slippage included. */
  function Stake(setup: Setup): real {
    Min(setup.maxSize, 1.0) * (1.0 + setup.slippageBps / 10000.0)
  }

  /** Money to start with, and costs that are fractions. */
  predicate Sane(setup: Setup) {
    setup.start > 0.0 && 0.0 <= setup.feeRate <= 1.0 && 0.0 <= setup.slippageBps <= 10000.0
  }

  predicate SpotSetup(setup: Setup) {
    Sane(setup) && setup.spotOnly && Stake(setup) <= 1.0
  }

  ghost predicate PricesNonNegative(candles: seq<Candle>) {
    forall k | 0 <= k < |candles| :: candles[k].close >= 0.0
  }

  /** The equity covers what the open position cost, so that losing all of it leaves nothing owed. */
  ghost predicate Funded(setup: Setup, a: Account) {
    && a.equity >= 0.0
    && (Stake(setup) < 1.0 ==> a.equity > 0.0)
    && (a.position.Some? ==>
          var p := a.position.value;
          && p.side.Buy? && p.quantity > 0.0 && p.entryPrice * p.quantity <= a.equity
          && (Stake(setup) < 1.0 ==> p.entryPrice * p.quantity < a.equity))
  }

  /** At worst a long loses what it cost. */
  lemma LongLosesAtMostCost(setup: Setup, p: Position, exitPrice: real)
    requires p.side.Buy? && p.quantity > 0.0 && exitPrice >= 0.0 && setup.feeRate <= 1.0
    ensures Profit(setup, p, exitPrice) >= -(p.entryPrice * p.quantity)
  {
    var proceeds := exitPrice * p.quantity;
    ProductNonNegative(exitPrice, p.quantity);
    FractionAtMost(proceeds, setup.feeRate, proceeds * setup.feeRate);
    assert Profit(setup, p, exitPrice) == proceeds - p.entryPrice * p.quantity - proceeds * setup.feeRate;
  }

  lemma CostWithinStake(setup: Setup, equity: real, price: real, quantity: real, notional: real)
    requires SpotSetup(setup) && equity >= 0.0
    requires notional == quantity * price && 0.0 < notional <= setup.maxSize * equity && notional <= equity
    ensures FillPrice(setup, price, Buy) * quantity <= equity
    ensures Stake(setup) < 1.0 ==> FillPrice(setup, price, Buy) * quantity < equity
  {
    var c, stake, share := 1.0 + setup.slippageBps / 10000.0, Stake(setup), Min(setup.maxSize, 1.0);
    assert equity > 0.0;
    assert notional <= share * equity;
    assert FillPrice(setup, price, Buy) * quantity == notional * c;
    ProductOrder(notional, share * equity, c);
    assert share * equity * c == stake * equity;
    ProductOrder(stake, 1.0, equity);
    ProductSign(1.0 - stake, equity);
  }

  lemma ManageStaysFunded(setup: Setup, a: Account, p: Position, i: nat, price: real, atr: real, action: Option<Side>)
    requires SpotSetup(setup) && Funded(setup, a) && a.position == Some(p) && price >= 0.0
    ensures var next := Manage(setup, a, p, i, price, atr, action); next.Some? ==> Funded(setup, next.value)
  {
    var exitPrice := FillPrice(setup, price, Sell);
    ProductNonNegative(price, 1.0 - setup.slippageBps / 10000.0);
    LongLosesAtMostCost(setup, p, exitPrice);
    hide FillPrice, Profit, Stake, ExitReason;
  }

  lemma EnterStaysFunded(setup: Setup, a: Account, i: nat, price: real, atr: real, confidence: real)
    requires SpotSetup(setup) && Funded(setup, a) && a.position == None
    ensures var next := Enter(setup, a, i, price, atr, Buy, confidence); next.Some? ==> Funded(setup, next.value)
  {
    hide FillPrice, Stake, SizeOf, StopOf;
    var stop := StopOf(Buy, price, atr);
    var size := SizeOf(a.equity, price, stop, confidence, setup.maxRisk, setup.maxSize, 0.0, 1.0, 0.0);
    if size.Sized? && size.quantity > 0.0 {
      SizeRespectsLimits(a.equity, price, stop, confidence, setup.maxRisk, setup.maxSize, 0.0, 1.0, 0.0);
      CostWithinStake(setup, a.equity, price, size.quantity, size.notional);
    }
  }

  lemma StepStaysFunded(setup: Setup, strategy: Strategy, window: seq<Candle>, a: Account)
    requires window != [] && window[|window| - 1].close >= 0.0
    requires SpotSetup(setup) && Funded(setup, a)
    ensures Step(setup, strategy, window, a).Some? ==> Funded(setup, Step(setup, strategy, window, a).value)
  {
    hide AtrNow, Manage, Enter, Stake, Fall, Decide;
    var i, price, atr := |window| - 1, window[|window| - 1].close, AtrNow(window);
    if strategy(window).Some? {
      var decision := Decide(setup, strategy(window).value);
      match a.position {
        case Some(p) => ManageStaysFunded(setup, a, p, i, price, atr, decision.action);
        case None => EnterStaysFunded(setup, a, i, price, atr, decision.confidence);
      }
    }
  }

  lemma {:induction false} StaysFunded(setup: Setup, strategy: Strategy, candles: seq<Candle>, n: nat)
    requires SpotSetup(setup) && PricesNonNegative(candles)
    requires n <= |candles| && RunTo(setup, strategy, candles, n).Some?
    ensures Funded(setup, RunTo(setup, strategy, candles, n).value)
    ensures NeverNegative(RunTo(setup, strategy, candles, n).value.curve)
  {
    hide Step, Stake;
    if n > setup.warmup {
      var before := RunTo(setup, strategy, candles, n - 1).value;
      StaysFunded(setup, strategy, candles, n - 1);
      StepStaysFunded(setup, strategy, candles[..n], before);
      StepGrows(setup, strategy, candles[..n], before);
    }
  }

  /** A spot backtest whose stake fits the equity never goes negative, so its drawdown is the deepest fall. */
  lemma SpotEquityNeverNegative(setup: Setup, strategy: Strategy, candles: seq<Candle>)
    requires SpotSetup(setup) && PricesNonNegative(candles)
    requires RunTo(setup, strategy, candles, |candles|).Some?
    ensures var a := RunTo(setup, strategy, candles, |candles|).value;
      && NeverNegative(a.curve)
      && DeepestFall(a.curve, a.maxDrawdown)
      && a.maxDrawdown <= 1.0
  {
    hide RunTo, DeepestFall, NoHiddenFall;
    StaysFunded(setup, strategy, candles, |candles|);
    DrawdownIsDeepestFall(setup, strategy, candles, |candles|);
  }

  // ----- fees only cost -----

  lemma MinTimes(r: real, x: real, y: real, rx: real, ry: real)
    requires r > 0.0 && rx == r * x && ry == r * y
    ensures Min(rx, ry) == r * Min(x, y)
    ensures Max(rx, ry) == r * Max(x, y)
  {
    ProductOrder(x, y, r);
    ProductOrder(y, x, r);
  }

  lemma QuotientScales(r: real, x: real, y: real)
    requires y > 0.0
    ensures r * x / y == r * (x / y)
  {
    TimesQuotient(r * (x / y), y);
    QuotientTimes(x, y);
  }

  lemma RawScales(r: real, equity: real, entry: real, stop: real, maxRisk: real, confidence: real, penalty: real)
    requires ValidPrices(entry, stop)
    ensures RawNotional(r * equity, entry, stop, maxRisk, confidence, penalty)
         == r * RawNotional(equity, entry, stop, maxRisk, confidence, penalty)
  {
    var budget, distance := RiskBudget(equity * maxRisk, confidence, penalty), StopDistance(entry, stop);
    var c, d := ConfidenceScalar(confidence), CorrelationScalar(penalty);
    assert RiskBudget(r * equity * maxRisk, confidence, penalty) == r * budget by {
      hide ConfidenceScalar, CorrelationScalar;
      assert r * equity * maxRisk * c * d == r * (equity * maxRisk * c * d);
    }
    hide RiskBudget, StopDistance;
    QuotientScales(r, budget, distance);
    assert r * (budget / distance) * entry == r * (budget / distance * entry);
  }

  /** The notional a sizing settles on when nothing else is held. */
  function Settled(equity: real, entry: real, stop: real, confidence: real, maxRisk: real, maxSize: real): real
    requires ValidPrices(entry, stop)
  {
    Min(Min(RawNotional(equity, entry, stop, maxRisk, confidence, 0.0), maxSize * equity), Max(0.0, equity))
  }

  lemma SettledScales(r: real, equity: real, richer: real, entry: real, stop: real, confidence: real,
                      maxRisk: real, maxSize: real)
    requires r > 0.0 && richer == r * equity && ValidPrices(entry, stop)
    ensures Settled(richer, entry, stop, confidence, maxRisk, maxSize)
         == r * Settled(equity, entry, stop, confidence, maxRisk, maxSize)
  {
    hide RawNotional, StopDistance, Min, Max;
    RawScales(r, equity, entry, stop, maxRisk, confidence, 0.0);
    var raw, rRaw := RawNotional(equity, entry, stop, maxRisk, confidence, 0.0),
                     RawNotional(richer, entry, stop, maxRisk, confidence, 0.0);
    var limit, rLimit := maxSize * equity, maxSize * richer;
    MinTimes(r, raw, limit, rRaw, rLimit);
    MinTimes(r, 0.0, equity, 0.0, richer);
    MinTimes(r, Min(raw, limit), Max(0.0, equity), Min(rRaw, rLimit), Max(0.0, richer));
  }

  lemma SizeIsSettled(equity: real, entry: real, stop: real, confidence: real, maxRisk: real, maxSize: real)
    ensures var size := SizeOf(equity, entry, stop, confidence, maxRisk, maxSize, 0.0, 1.0, 0.0);
      && (size.Sized? <==> ValidPrices(entry, stop))
      && (size.Sized? ==>
            var notional := Settled(equity, entry, stop, confidence, maxRisk, maxSize);
            size.quantity == if notional <= 0.0 then 0.0 else notional / entry)
  {
  }

  lemma ScaledQuantity(r: real, notional: real, scaled: real, entry: real)
    requires r > 0.0 && entry > 0.0 && scaled == r * notional
    ensures (if scaled <= 0.0 then 0.0 else scaled / entry) == r * (if notional <= 0.0 then 0.0 else notional / entry)
  {
    ProductSign(notional, r);
    QuotientScales(r, notional, entry);
  }

  /** A position is sized in proportion to the equity. */
  lemma SizeScales(r: real, equity: real, richer: real, entry: real, stop: real, confidence: real,
                   maxRisk: real, maxSize: real)
    requires r > 0.0 && richer == r * equity
    ensures var one, many := SizeOf(equity, entry, stop, confidence, maxRisk, maxSize, 0.0, 1.0, 0.0),
                             SizeOf(richer, entry, stop, confidence, maxRisk, maxSize, 0.0, 1.0, 0.0);
      && (one.Invalid? <==> many.Invalid?)
      && (one.Sized? ==> many.quantity == r * one.quantity)
  {
    SizeIsSettled(equity, entry, stop, confidence, maxRisk, maxSize);
    SizeIsSettled(richer, entry, stop, confidence, maxRisk, maxSize);
    hide SizeOf;
    if ValidPrices(entry, stop) {
      SettledScales(r, equity, richer, entry, stop, confidence, maxRisk, maxSize);
      hide Settled, ValidPrices;
      ScaledQuantity(r, Settled(equity, entry, stop, confidence, maxRisk, maxSize),
                     Settled(richer, entry, stop, confidence, maxRisk, maxSize), entry);
    }
  }

  // ----- where the fee reaches the decisions -----

  /** The same settings but for the fee. */
  predicate OnlyFeesDiffer(cheap: Setup, dear: Setup) {
    cheap.feeRate <= dear.feeRate && cheap == dear.(feeRate := cheap.feeRate)
  }

  /** The signal meets what the engine asks for: enough confidence, edge and score, and no crash. */
  predicate Acts(setup: Setup, g: Signal) {
    && g.Scored? && g.confidence >= setup.minConfidence && !g.crash
    && g.expectedReturn >= setup.minEdge + setup.feeRate && g.score > 5.0 * setup.feeRate
  }

  /** Its expected return or its score lies between what the two fees ask for, and nothing else is in its way. */
  predicate Between(cheap: Setup, dear: Setup, g: Signal) {
    && g.Scored? && g.confidence >= cheap.minConfidence && !g.crash
    && g.expectedReturn >= cheap.minEdge + cheap.feeRate && g.score > 5.0 * cheap.feeRate
    && (g.expectedReturn < dear.minEdge + dear.feeRate || g.score <= 5.0 * dear.feeRate)
  }

  /** Exactly then it becomes a trade. */
  lemma ActsExactly(setup: Setup, g: Signal)
    ensures Decide(setup, g).action == if Acts(setup, g) then Some(g.side) else None
    ensures g.Scored? ==> Decide(setup, g).confidence == g.confidence
  {
    if g.Scored? {
      ProductSign(g.score - setup.feeRate * 5.0, g.agreement);
    }
  }

  /** Two fees lead to the same decision exactly on the signals that do not lie between them. */
  lemma DecisionsAgree(cheap: Setup, dear: Setup, g: Signal)
    requires OnlyFeesDiffer(cheap, dear)
    ensures Decide(cheap, g) == Decide(dear, g) <==> !Between(cheap, dear, g)
    ensures Between(cheap, dear, g) <==> Acts(cheap, g) && !Acts(dear, g)
    ensures Acts(dear, g) ==> Acts(cheap, g)
  {
    ActsExactly(cheap, g);
    ActsExactly(dear, g);
    hide HasEdge, HasScore;
  }

  /** No signal the strategy gives lies between the two fees. */
  ghost predicate Agreed(cheap: Setup, dear: Setup, strategy: Strategy) {
    forall window: seq<Candle> | strategy(window).Some? :: !Between(cheap, dear, strategy(window).value)
  }

  // ----- fees only cost while the decisions agree -----

  /** Two accounts at the same point of the same plan, the cheap one at least as rich, both invested in proportion. */
  ghost predicate Ahead(cheap: Account, dear: Account) {
    && cheap.equity >= dear.equity > 0.0
    && (cheap.position.Some? <==> dear.position.Some?)
    && (cheap.position.Some? ==>
          var p, q := cheap.position.value, dear.position.value;
          && p == q.(quantity := p.quantity)
          && p.quantity == cheap.equity / dear.equity * q.quantity)
  }

  /** The dear account has lost everything and stays out. */
  predicate Broke(dear: Account) {
    dear.equity == 0.0 && dear.position == None
  }

  ghost predicate Leads(cheap: Account, dear: Account) {
    && (Ahead(cheap, dear) || (Broke(dear) && cheap.equity >= 0.0))
    && |cheap.curve| == |dear.curve|
    && (forall k | 0 <= k < |cheap.curve| :: cheap.curve[k] >= dear.curve[k])
  }

  /** A position `r` times as large, at a lower fee, leaves at least `r` times as much. */
  lemma CheaperExit(cheap: Setup, dear: Setup, p: Position, q: Position, exitPrice: real, r: real, equity: real)
    requires cheap.feeRate <= dear.feeRate && exitPrice >= 0.0
    requires p == q.(quantity := p.quantity) && p.side.Buy? && q.quantity > 0.0
    requires p.quantity == r * q.quantity && r >= 1.0
    requires equity + Profit(dear, q, exitPrice) >= 0.0
    ensures r * equity + Profit(cheap, p, exitPrice) >= equity + Profit(dear, q, exitPrice)
  {
    var low, high := Profit(cheap, q, exitPrice), Profit(dear, q, exitPrice);
    assert low >= high by {
      var proceeds := exitPrice * q.quantity;
      ProductNonNegative(exitPrice, q.quantity);
      ProductNonNegative(proceeds, dear.feeRate - cheap.feeRate);
    }
    assert Profit(cheap, p, exitPrice) == r * low by {
      var gain, fee := exitPrice - q.entryPrice, exitPrice * q.quantity * cheap.feeRate;
      assert gain * (r * q.quantity) == r * (gain * q.quantity);
      assert exitPrice * (r * q.quantity) * cheap.feeRate == r * fee;
      assert r * (gain * q.quantity - fee) == r * (gain * q.quantity) - r * fee;
    }
    hide Profit;
    ProductNonNegative(r, low - high);
    ProductNonNegative(r - 1.0, equity + high);
    assert r * equity + r * low == r * (equity + low);
    assert r * (low - high) == r * (equity + low) - r * (equity + high);
  }

  lemma ReasonIgnoresQuantity(p: Position, q: Position, price: real, atr: real, action: Option<Side>)
    requires p == q.(quantity := p.quantity)
    ensures ExitReason(p, price, atr, action) == ExitReason(q, price, atr, action)
  {
  }

  lemma RatioFacts(x: real, y: real)
    requires x >= y > 0.0
    ensures x == x / y * y && x / y >= 1.0
  {
    QuotientTimes(x, y);
    QuotientOrder(x, y, 1.0);
  }

  ghost predicate SpotPair(cheap: Setup, dear: Setup) {
    SpotSetup(cheap) && SpotSetup(dear) && OnlyFeesDiffer(cheap, dear)
  }

  /** Both close: the cheap account stays ahead, or the dear one has nothing left. */
  lemma CloseLeads(cheap: Setup, dear: Setup, a: Account, b: Account, i: nat, price: real, reason: Reason)
    requires SpotPair(cheap, dear) && price >= 0.0
    requires Funded(dear, b) && Ahead(a, b) && a.position.Some?
    requires Close(b, Closing(dear, b.position.value, i, price, reason)).equity >= 0.0
    ensures var x, y := Close(a, Closing(cheap, a.position.value, i, price, reason)),
                        Close(b, Closing(dear, b.position.value, i, price, reason));
      x.equity >= y.equity && (Ahead(x, y) || Broke(y))
  {
    var p, q, r := a.position.value, b.position.value, a.equity / b.equity;
    var exitPrice := FillPrice(dear, price, Sell);
    ProductNonNegative(price, 1.0 - dear.slippageBps / 10000.0);
    assert FillPrice(cheap, price, Sell) == exitPrice;
    hide FillPrice, Profit, Stake;
    RatioFacts(a.equity, b.equity);
    CheaperExit(cheap, dear, p, q, exitPrice, r, b.equity);
  }

  lemma ManageLeads(cheap: Setup, dear: Setup, a: Account, b: Account, i: nat, price: real, atr: real,
                    action: Option<Side>)
    requires SpotPair(cheap, dear) && price >= 0.0
    requires Funded(dear, b) && Ahead(a, b) && a.position.Some?
    ensures var x, y := Manage(cheap, a, a.position.value, i, price, atr, action),
                        Manage(dear, b, b.position.value, i, price, atr, action);
      && (x.Some? <==> y.Some?)
      && (x.Some? ==> x.value.equity >= y.value.equity >= 0.0 && (Ahead(x.value, y.value) || Broke(y.value)))
  {
    assert Stake(dear) == Stake(cheap);
    hide ExitReason, Closing, Stake;
    var q := b.position.value;
    ManageStaysFunded(dear, b, q, i, price, atr, action);
    ReasonIgnoresQuantity(a.position.value, q, price, atr, action);
    var reason := ExitReason(q, price, atr, action);
    if atr > 0.0 && reason.Some? {
      CloseLeads(cheap, dear, a, b, i, price, reason.value);
    }
  }

  lemma EnterLeads(cheap: Setup, dear: Setup, a: Account, b: Account, i: nat, price: real, atr: real,
                   confidence: real)
    requires SpotPair(cheap, dear) && Ahead(a, b) && a.position == None
    ensures var x, y := Enter(cheap, a, i, price, atr, Buy, confidence), Enter(dear, b, i, price, atr, Buy, confidence);
      && (x.Some? <==> y.Some?)
      && (x.Some? ==> Ahead(x.value, y.value) && x.value.equity >= y.value.equity)
  {
    hide SizeOf, StopOf, Stake;
    var r := a.equity / b.equity;
    QuotientTimes(a.equity, b.equity);
    QuotientOrder(a.equity, b.equity, 1.0);
    SizeScales(r, b.equity, a.equity, price, StopOf(Buy, price, atr), confidence, dear.maxRisk, dear.maxSize);
    assert FillPrice(cheap, price, Buy) == FillPrice(dear, price, Buy);
    hide FillPrice;
    var one := SizeFor(dear, b.equity, Buy, price, atr, confidence);
    if one.Sized? {
      ProductSign(one.quantity, r);
    }
  }

  /** An account with nothing in it buys nothing. */
  lemma NothingToSpend(setup: Setup, side: Side, price: real, atr: real, confidence: real)
    ensures var size := SizeFor(setup, 0.0, side, price, atr, confidence); size.Invalid? || size.quantity == 0.0
  {
    hide RawNotional, StopOf;
  }

  lemma BrokeStaysOut(setup: Setup, b: Account, window: seq<Candle>, decision: Decision)
    requires window != [] && Broke(b)
    ensures var y := Act(setup, b, window, decision); y.Some? ==> Broke(y.value)
  {
    hide AtrNow, SizeFor, FillPrice;
    if decision.action.Some? {
      NothingToSpend(setup, decision.action.value, window[|window| - 1].close, AtrNow(window), decision.confidence);
    }
  }

  /** One candle, with one decision for both. */
  lemma ActLeads(cheap: Setup, dear: Setup, window: seq<Candle>, a: Account, b: Account, decision: Decision)
    requires window != [] && window[|window| - 1].close >= 0.0
    requires SpotPair(cheap, dear) && Funded(dear, b) && Ahead(a, b)
    ensures var x, y := Act(cheap, a, window, decision), Act(dear, b, window, decision);
      && (x.Some? <==> y.Some?)
      && (x.Some? ==> x.value.equity >= y.value.equity >= 0.0 && (Ahead(x.value, y.value) || Broke(y.value)))
  {
    hide AtrNow, Manage, Enter, Stake;
    var i, price, atr := |window| - 1, window[|window| - 1].close, AtrNow(window);
    match a.position {
      case Some(p) => ManageLeads(cheap, dear, a, b, i, price, atr, decision.action);
      case None => EnterLeads(cheap, dear, a, b, i, price, atr, decision.confidence);
    }
  }

  lemma MarkLeads(a: Account, b: Account, x: Account, y: Account)
    requires Leads(a, b) && x.curve == a.curve && y.curve == b.curve
    requires x.equity >= y.equity >= 0.0 && (Ahead(x, y) || Broke(y))
    ensures Leads(Mark(x), Mark(y))
  {
    hide Fall, Max;
  }

  lemma StepLeads(cheap: Setup, dear: Setup, strategy: Strategy, window: seq<Candle>, a: Account, b: Account)
    requires window != [] && window[|window| - 1].close >= 0.0
    requires strategy(window).Some? ==> !Between(cheap, dear, strategy(window).value)
    requires SpotPair(cheap, dear) && Funded(cheap, a) && Funded(dear, b) && Leads(a, b)
    ensures var x, y := Step(cheap, strategy, window, a), Step(dear, strategy, window, b);
      && (x.Some? && y.Some? ==> Leads(x.value, y.value))
      && (b.equity > 0.0 ==> (x.Some? <==> y.Some?))
  {
    hide Act, Mark, Stake, Decide, Between;
    if strategy(window).Some? {
      var decision := Decide(cheap, strategy(window).value);
      DecisionsAgree(cheap, dear, strategy(window).value);
      var x, y := Act(cheap, a, window, decision), Act(dear, b, window, decision);
      if Ahead(a, b) {
        ActLeads(cheap, dear, window, a, b, decision);
      } else {
        BrokeStaysOut(dear, b, window, decision);
        StepStaysFunded(cheap, strategy, window, a);
      }
      if x.Some? && y.Some? {
        ActKeepsMarks(cheap, a, window, decision);
        ActKeepsMarks(dear, b, window, decision);
        assert x.value.equity >= y.value.equity by { MarkKeepsEquity(x.value); }
        MarkLeads(a, b, x.value, y.value);
      }
    }
  }

  lemma MarkKeepsEquity(a: Account)
    ensures Mark(a).equity == a.equity
  {
  }

  /**
   * Fees only cost: as long as no signal lies between the two fees, a spot backtest at the lower fee has at least as
   * much equity at every point of the curve, and holds the same entries in proportion until the dear one has lost
   * everything. A stake under the equity rules that out, and then neither run fails without the other.
   */
  lemma {:induction false} FeesNeverHelp(cheap: Setup, dear: Setup, strategy: Strategy, candles: seq<Candle>, n: nat)
    requires SpotPair(cheap, dear) && PricesNonNegative(candles) && n <= |candles|
    requires Agreed(cheap, dear, strategy)
    ensures RunTo(cheap, strategy, candles, n).Some? && RunTo(dear, strategy, candles, n).Some? ==>
      Leads(RunTo(cheap, strategy, candles, n).value, RunTo(dear, strategy, candles, n).value)
    ensures Stake(cheap) < 1.0 ==>
      (RunTo(cheap, strategy, candles, n).Some? <==> RunTo(dear, strategy, candles, n).Some?)
  {
    hide Step, Stake, Between;
    assert Stake(dear) == Stake(cheap) by { SameStake(cheap, dear); }
    if n > cheap.warmup {
      FeesNeverHelp(cheap, dear, strategy, candles, n - 1);
      if RunTo(cheap, strategy, candles, n - 1).Some? && RunTo(dear, strategy, candles, n - 1).Some? {
        StaysFunded(cheap, strategy, candles, n - 1);
        StaysFunded(dear, strategy, candles, n - 1);
        StepLeads(cheap, dear, strategy, candles[..n],
                  RunTo(cheap, strategy, candles, n - 1).value, RunTo(dear, strategy, candles, n - 1).value);
      }
    }
  }

  lemma SameStake(cheap: Setup, dear: Setup)
    requires OnlyFeesDiffer(cheap, dear)
    ensures Stake(dear) == Stake(cheap)
  {
  }
}
