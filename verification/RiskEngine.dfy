/**
 * The hard limits: account-wide stops, per-trade limits and position sizing.
 */
module RiskEngine {
  import opened Common

  /** One entry of `state.open_positions`, an insertion-ordered dict. */
  datatype Holding = Holding(symbol: Pair, notional: real, quantity: real, entryPrice: real)

  datatype Portfolio = Portfolio(
    equity: real, peakEquity: real, cash: real, open: seq<Holding>, dailyPnl: real, dailyStartEquity: real,
    tradesThisHour: int, lastEntryTime: Option<int>, lastSignalTime: map<Pair, int>)

  // ----- account-wide stops -----

  datatype Limit = MinBalanceFloor | MaxDrawdown | MaxDailyLoss

  datatype AccountLimits = AccountLimits(maxDailyLoss: real, maxDrawdown: real, floor: Option<real>)

  function DrawdownOf(equity: real, peak: real): real {
    if peak != 0.0 then (peak - equity) / peak else 0.0
  }

  function DailyLossOf(pnl: real, start: real): real {
    if start != 0.0 then -pnl / start else 0.0
  }

  /** The limit that raises, if any. */
  function Breach(p: Portfolio, limits: AccountLimits): Option<Limit> {
    if limits.floor.Some? && p.equity <= limits.floor.value then Some(MinBalanceFloor)
    else if DrawdownOf(p.equity, p.peakEquity) >= limits.maxDrawdown then Some(MaxDrawdown)
    else if DailyLossOf(p.dailyPnl, p.dailyStartEquity) >= limits.maxDailyLoss then Some(MaxDailyLoss)
    else None
  }

  predicate ShouldFlatten(l: Limit) {
    !l.MaxDailyLoss?
  }

  /** A limit that flattens always wins over the one that only pauses. */
  lemma FlattenWins(p: Portfolio, limits: AccountLimits)
    ensures (Breach(p, limits).Some? && ShouldFlatten(Breach(p, limits).value))
        <==> (limits.floor.Some? && p.equity <= limits.floor.value)
             || DrawdownOf(p.equity, p.peakEquity) >= limits.maxDrawdown
  {
  }

  /**
   * Which limit stops the account, in money: the floor first, then a fall from a positive peak by the allowed part of
   * it, then a loss on the day of the allowed part of what the day began with. A profit never stops it.
   */
  lemma BreachInMoney(p: Portfolio, limits: AccountLimits)
    requires p.peakEquity > 0.0 && p.dailyStartEquity > 0.0
    ensures var floor := limits.floor.Some? && p.equity <= limits.floor.value;
      var fall := p.peakEquity - p.equity >= limits.maxDrawdown * p.peakEquity;
      var loss := p.dailyPnl <= -(limits.maxDailyLoss * p.dailyStartEquity);
      && (Breach(p, limits) == Some(MinBalanceFloor) <==> floor)
      && (Breach(p, limits) == Some(MaxDrawdown) <==> !floor && fall)
      && (Breach(p, limits) == Some(MaxDailyLoss) <==> !floor && !fall && loss)
      && (p.dailyPnl >= 0.0 && limits.maxDailyLoss > 0.0 ==> !loss)
  {
    QuotientOrder(p.peakEquity - p.equity, p.peakEquity, limits.maxDrawdown);
    QuotientOrder(-p.dailyPnl, p.dailyStartEquity, limits.maxDailyLoss);
    ProductSign(limits.maxDailyLoss, p.dailyStartEquity);
  }

  // ----- per-trade limits -----

  datatype TradeRules = TradeRules(
    maxOpenPositions: int, maxPortfolioExposure: real, maxPositionSize: real,
    cooldownSeconds: int, maxTradesPerHour: int, minEntryGapSeconds: int)

  datatype Verdict =
    | Approved | AlreadyOpen | TooManyOpen | TooLarge | CorrelatedExposure | TotalExposure
    | CoolingDown | TooManyTrades | TooSoon

  const CORRELATION_LIMIT: real := 0.7

  predicate IsOpen(open: seq<Holding>, symbol: Pair) {
    exists i | 0 <= i < |open| :: open[i].symbol == symbol
  }

  /** The holding of a symbol: its last entry, as a dict keeps only one. */
  function Lookup(open: seq<Holding>, symbol: Pair): (h: Option<Holding>)
    ensures h.None? <==> !IsOpen(open, symbol)
    ensures h.Some? ==> h.value in open && h.value.symbol == symbol
  {
    if open == [] then None
    else if open[|open| - 1].symbol == symbol then Some(open[|open| - 1])
    else
      var rest := open[..|open| - 1];
      assert open == rest + [open[|open| - 1]];
      assert forall i | 0 <= i < |rest| :: rest[i] == open[i];
      Lookup(rest, symbol)
  }

  function Exposure(open: seq<Holding>): real {
    if open == [] then 0.0 else Exposure(open[..|open| - 1]) + open[|open| - 1].notional
  }

  predicate Counts(open: seq<Holding>, c: (Pair, real)) {
    IsOpen(open, c.0) && c.1 >= CORRELATION_LIMIT
  }

  function CorrelatedNotional(open: seq<Holding>, correlated: seq<(Pair, real)>): real {
    if correlated == [] then 0.0
    else
      var n := |correlated| - 1;
      var before := CorrelatedNotional(open, correlated[..n]);
      if Counts(open, correlated[n]) then before + Lookup(open, correlated[n].0).value.notional else before
  }

  function CorrelationPenalty(open: seq<Holding>, correlated: seq<(Pair, real)>): real {
    if correlated == [] then 0.0
    else
      var n := |correlated| - 1;
      var before := CorrelationPenalty(open, correlated[..n]);
      if Counts(open, correlated[n]) then Max(before, correlated[n].1) else before
  }

  // What these sums are, entry by entry.

  function Notionals(open: seq<Holding>): (r: seq<real>)
    ensures |r| == |open| && forall i | 0 <= i < |r| :: r[i] == open[i].notional
  {
    seq(|open|, i requires 0 <= i < |open| => open[i].notional)
  }

  lemma {:induction false} ExposureIsSum(open: seq<Holding>)
    ensures Exposure(open) == Sum(Notionals(open))
  {
    if open != [] {
      var n := |open| - 1;
      ExposureIsSum(open[..n]);
      SumConcat(Notionals(open[..n]), [open[n].notional]);
      assert Notionals(open) == Notionals(open[..n]) + [open[n].notional];
      assert Sum([open[n].notional]) == open[n].notional;
    }
  }

  /** The penalty is the largest correlation of at least 0.7 with a symbol that is open, and zero without one. */
  lemma {:induction false} PenaltyIsLargest(open: seq<Holding>, correlated: seq<(Pair, real)>)
    ensures var penalty := CorrelationPenalty(open, correlated);
      && (forall i | 0 <= i < |correlated| && IsOpen(open, correlated[i].0) && correlated[i].1 >= 0.7 ::
            correlated[i].1 <= penalty)
      && (penalty == 0.0
          || exists i | 0 <= i < |correlated| ::
               IsOpen(open, correlated[i].0) && correlated[i].1 >= 0.7 && correlated[i].1 == penalty)
  {
    if correlated != [] {
      var n := |correlated| - 1;
      PenaltyIsLargest(open, correlated[..n]);
      assert forall i | 0 <= i < n :: correlated[..n][i] == correlated[i];
    }
  }

  /** The money in the open symbols that correlate with the new one by at least 0.7. */
  function Together(open: seq<Holding>, correlated: seq<(Pair, real)>): (r: seq<real>)
    ensures |r| == |correlated|
  {
    seq(|correlated|, i requires 0 <= i < |correlated| =>
      if correlated[i].1 >= 0.7 && Lookup(open, correlated[i].0).Some?
      then Lookup(open, correlated[i].0).value.notional else 0.0)
  }

  lemma {:induction false} CorrelatedIsSum(open: seq<Holding>, correlated: seq<(Pair, real)>)
    ensures CorrelatedNotional(open, correlated) == Sum(Together(open, correlated))
  {
    if correlated != [] {
      var n := |correlated| - 1;
      var last := Together(open, correlated)[n];
      CorrelatedIsSum(open, correlated[..n]);
      SumConcat(Together(open, correlated[..n]), [last]);
      assert Together(open, correlated) == Together(open, correlated[..n]) + [last];
      assert Sum([last]) == last;
    }
  }

  /** The first check that fails, in the order the engine runs them. */
  function TradeVerdict(p: Portfolio, symbol: Pair, proposed: real, rules: TradeRules,
                        correlated: seq<(Pair, real)>, now: int): Verdict
  {
    var together := CorrelatedNotional(p.open, correlated);
    if IsOpen(p.open, symbol) then AlreadyOpen
    else if |p.open| >= rules.maxOpenPositions then TooManyOpen
    else if p.equity == 0.0 || proposed / p.equity > rules.maxPositionSize then TooLarge
    else if together > 0.0 && (together + proposed) / p.equity > rules.maxPortfolioExposure then CorrelatedExposure
    else if (Exposure(p.open) + proposed) / p.equity > rules.maxPortfolioExposure then TotalExposure
    else if symbol in p.lastSignalTime && now - p.lastSignalTime[symbol] < rules.cooldownSeconds then CoolingDown
    else if p.tradesThisHour >= rules.maxTradesPerHour then TooManyTrades
    else if p.lastEntryTime.Some? && now - p.lastEntryTime.value < rules.minEntryGapSeconds then TooSoon
    else Approved
  }

  /** All of the rules at once, each in its own terms. */
  ghost predicate WithinRules(p: Portfolio, symbol: Pair, proposed: real, rules: TradeRules,
                              correlated: seq<(Pair, real)>, now: int)
  {
    var together, all := Sum(Together(p.open, correlated)), Sum(Notionals(p.open));
    && (forall i | 0 <= i < |p.open| :: p.open[i].symbol != symbol)
    && |p.open| < rules.maxOpenPositions
    && p.equity != 0.0 && proposed / p.equity <= rules.maxPositionSize
    && (together > 0.0 ==> (together + proposed) / p.equity <= rules.maxPortfolioExposure)
    && (all + proposed) / p.equity <= rules.maxPortfolioExposure
    && (symbol in p.lastSignalTime ==> p.lastSignalTime[symbol] + rules.cooldownSeconds <= now)
    && p.tradesThisHour < rules.maxTradesPerHour
    && (p.lastEntryTime.Some? ==> p.lastEntryTime.value + rules.minEntryGapSeconds <= now)
  }

  /** A trade is approved exactly when it keeps them all. */
  lemma ApprovedExactly(p: Portfolio, symbol: Pair, proposed: real, rules: TradeRules,
                        correlated: seq<(Pair, real)>, now: int)
    ensures TradeVerdict(p, symbol, proposed, rules, correlated, now).Approved?
       <==> WithinRules(p, symbol, proposed, rules, correlated, now)
  {
    ExposureIsSum(p.open);
    CorrelatedIsSum(p.open, correlated);
    hide Exposure, CorrelatedNotional, Sum, Together, Notionals;
  }

  /** The checks as the engine runs them: one pass over the correlated symbols, then early returns. */
  method CheckTradeAgainstLimits(p: Portfolio, symbol: Pair, proposed: real, rules: TradeRules,
                                 correlated: seq<(Pair, real)>, now: int)
    returns (verdict: Verdict, penalty: real)
    ensures verdict == TradeVerdict(p, symbol, proposed, rules, correlated, now)
    ensures penalty == CorrelationPenalty(p.open, correlated)
  {
    penalty := 0.0;
    var together := 0.0;
    for i := 0 to |correlated|
      invariant penalty == CorrelationPenalty(p.open, correlated[..i])
      invariant together == CorrelatedNotional(p.open, correlated[..i])
    {
      assert correlated[..i + 1][..i] == correlated[..i];
      var position := Lookup(p.open, correlated[i].0);
      if position.Some? && correlated[i].1 >= CORRELATION_LIMIT {
        together := together + position.value.notional;
        penalty := Max(penalty, correlated[i].1);
      }
    }
    assert correlated[..|correlated|] == correlated;

    if IsOpen(p.open, symbol) {
      return AlreadyOpen, penalty;
    }
    if |p.open| >= rules.maxOpenPositions {
      return TooManyOpen, penalty;
    }
    if p.equity == 0.0 || proposed / p.equity > rules.maxPositionSize {
      return TooLarge, penalty;
    }
    if together > 0.0 && (together + proposed) / p.equity > rules.maxPortfolioExposure {
      return CorrelatedExposure, penalty;
    }
    var exposure := 0.0;
    for i := 0 to |p.open|
      invariant exposure == Exposure(p.open[..i])
    {
      assert p.open[..i + 1][..i] == p.open[..i];
      exposure := exposure + p.open[i].notional;
    }
    assert p.open[..|p.open|] == p.open;
    if (exposure + proposed) / p.equity > rules.maxPortfolioExposure {
      return TotalExposure, penalty;
    }
    if symbol in p.lastSignalTime && now - p.lastSignalTime[symbol] < rules.cooldownSeconds {
      return CoolingDown, penalty;
    }
    if p.tradesThisHour >= rules.maxTradesPerHour {
      return TooManyTrades, penalty;
    }
    if p.lastEntryTime.Some? && now - p.lastEntryTime.value < rules.minEntryGapSeconds {
      return TooSoon, penalty;
    }
    return Approved, penalty;
  }
}

/** Fixed-fractional position sizing against the stop distance. */
module PositionSizing {
  import opened Common

  datatype Cap = NoCap | PositionCap | ExposureCap | NoRoom

  /** `Invalid` stands for the ValueError of a non-positive price or a stop at the entry. */
  datatype Sizing = Invalid | Sized(quantity: real, notional: real, riskAmount: real, cappedBy: Cap)

  function Clamp(x: real): real {
    Max(0.0, Min(1.0, x))
  }

  function StopDistance(entry: real, stop: real): real {
    Abs(entry - stop)
  }

  predicate ValidPrices(entry: real, stop: real) {
    entry > 0.0 && stop > 0.0 && entry != stop
  }

  function ConfidenceScalar(confidence: real): (r: real)
    ensures 0.5 <= r <= 1.0
  {
    0.5 + 0.5 * Clamp(confidence)
  }

  function CorrelationScalar(penalty: real): (r: real)
    ensures 0.4 <= r <= 1.0
  {
    1.0 - Clamp(penalty) * 0.6
  }

  /** Risk money before any cap. */
  function RiskBudget(riskMoney: real, confidence: real, penalty: real): real {
    riskMoney * ConfidenceScalar(confidence) * CorrelationScalar(penalty)
  }

  function RawNotional(equity: real, entry: real, stop: real, maxRisk: real, confidence: real, penalty: real): real
    requires ValidPrices(entry, stop)
  {
    RiskBudget(equity * maxRisk, confidence, penalty) / StopDistance(entry, stop) * entry
  }

  function Room(equity: real, exposed: real, maxExposed: real): real {
    Max(0.0, (maxExposed - exposed) * equity)
  }

  /** The notional is the smallest of risk budget, position cap and exposure room; nothing if that is not positive. */
  function SizeOf(equity: real, entry: real, stop: real, confidence: real, maxRisk: real,
                  maxSize: real, exposed: real, maxExposed: real, penalty: real): Sizing
  {
    if !ValidPrices(entry, stop) then Invalid
    else
      var raw := RawNotional(equity, entry, stop, maxRisk, confidence, penalty);
      var capped := Min(raw, maxSize * equity);
      var notional := Min(capped, Room(equity, exposed, maxExposed));
      var cap := if capped > Room(equity, exposed, maxExposed) then ExposureCap
                 else if raw > maxSize * equity then PositionCap else NoCap;
      if notional <= 0.0 then Sized(0.0, 0.0, 0.0, if cap.NoCap? then NoRoom else cap)
      else Sized(notional / entry, notional, notional / entry * StopDistance(entry, stop), cap)
  }

  /** The step-by-step computation, cap after cap. */
  method CalculatePositionSize(equity: real, entry: real, stop: real, confidence: real, maxRisk: real,
                               maxSize: real, exposed: real, maxExposed: real, penalty: real)
    returns (r: Sizing)
    ensures r == SizeOf(equity, entry, stop, confidence, maxRisk, maxSize, exposed, maxExposed, penalty)
  {
    hide ConfidenceScalar, CorrelationScalar;
    if entry <= 0.0 || stop <= 0.0 {
      return Invalid;
    }
    var distance := Abs(entry - stop);
    if distance <= 0.0 {
      return Invalid;
    }
    var riskAmount := equity * maxRisk * ConfidenceScalar(confidence) * CorrelationScalar(penalty);
    var quantity := riskAmount / distance;
    var notional := quantity * entry;
    var cappedBy := NoCap;
    assert notional == RawNotional(equity, entry, stop, maxRisk, confidence, penalty);
    TimesQuotient(quantity, entry);
    if notional > maxSize * equity {
      notional := maxSize * equity;
      quantity := notional / entry;
      cappedBy := PositionCap;
    }
    var room := Max(0.0, (maxExposed - exposed) * equity);
    if notional > room {
      notional := room;
      quantity := notional / entry;
      cappedBy := ExposureCap;
    }
    QuotientSign(notional, entry);
    if quantity <= 0.0 {
      return Sized(0.0, 0.0, 0.0, if cappedBy.NoCap? then NoRoom else cappedBy);
    }
    return Sized(quantity, notional, quantity * distance, cappedBy);
  }

  lemma ShrinksTwice(x: real, c: real, d: real, product: real)
    requires 0.0 < c <= 1.0 && 0.0 < d <= 1.0
    requires product == x * c * d && product > 0.0
    ensures product <= x
  {
    var scaled := x * c;
    ProductSign(scaled, d);
    ProductSign(x, c);
    FractionAtMost(x, c, scaled);
    FractionAtMost(scaled, d, product);
  }

  /** Confidence and correlation only ever shrink the risk budget. */
  lemma BudgetAtMost(riskMoney: real, confidence: real, penalty: real)
    requires RiskBudget(riskMoney, confidence, penalty) > 0.0
    ensures RiskBudget(riskMoney, confidence, penalty) <= riskMoney
  {
    ShrinksTwice(riskMoney, ConfidenceScalar(confidence), CorrelationScalar(penalty),
                 RiskBudget(riskMoney, confidence, penalty));
  }

  /** Capping the notional below the full-risk notional keeps the stop loss inside the budget. */
  lemma RiskWithinBudget(notional: real, entry: real, distance: real, budget: real)
    requires entry > 0.0 && distance > 0.0
    requires 0.0 < notional <= budget / distance * entry
    ensures 0.0 < notional / entry * distance <= budget
  {
  }

  /** Whatever the configuration, a position that is taken respects every limit and risks at most its budget. */
  lemma SizeRespectsLimits(equity: real, entry: real, stop: real, confidence: real, maxRisk: real,
                           maxSize: real, exposed: real, maxExposed: real, penalty: real)
    requires var r := SizeOf(equity, entry, stop, confidence, maxRisk, maxSize, exposed, maxExposed, penalty);
      r.Sized? && r.quantity > 0.0
    ensures var r := SizeOf(equity, entry, stop, confidence, maxRisk, maxSize, exposed, maxExposed, penalty);
      && r.notional == r.quantity * entry
      && 0.0 < r.notional <= maxSize * equity
      && r.notional <= (maxExposed - exposed) * equity
      && r.riskAmount == r.quantity * StopDistance(entry, stop) <= equity * maxRisk
  {
    hide RiskBudget;
    var r := SizeOf(equity, entry, stop, confidence, maxRisk, maxSize, exposed, maxExposed, penalty);
    var distance := StopDistance(entry, stop);
    var budget := RiskBudget(equity * maxRisk, confidence, penalty);
    QuotientSign(r.notional, entry);
    assert r.notional <= RawNotional(equity, entry, stop, maxRisk, confidence, penalty);
    RiskWithinBudget(r.notional, entry, distance, budget);
    assert r.riskAmount == r.quantity * distance <= budget;
    BudgetAtMost(equity * maxRisk, confidence, penalty);
  }
  /** A part of a number between 0 and 1, and nothing or all of it outside. */
  function Part(x: real): real {
    if x <= 0.0 then 0.0 else if x >= 1.0 then 1.0 else x
  }

  /** What each cap allows, in money: the risk budget at this stop, the position cap, and the room in the portfolio. */
  function Allowances(equity: real, entry: real, stop: real, confidence: real, maxRisk: real, maxSize: real,
                      exposed: real, maxExposed: real, penalty: real): (r: seq<real>)
    requires ValidPrices(entry, stop)
    ensures |r| == 3
  {
    var riskMoney := equity * maxRisk * (0.5 + 0.5 * Part(confidence)) * (1.0 - 0.6 * Part(penalty));
    [riskMoney / (if entry > stop then entry - stop else stop - entry) * entry,
     maxSize * equity, (maxExposed - exposed) * equity]
  }

  /**
   * The size is invalid exactly for unusable prices; otherwise it is worth the smallest of the three allowances, and
   * nothing unless all three are positive.
   */
  lemma SizeIsSmallest(equity: real, entry: real, stop: real, confidence: real, maxRisk: real, maxSize: real,
                       exposed: real, maxExposed: real, penalty: real)
    ensures var r := SizeOf(equity, entry, stop, confidence, maxRisk, maxSize, exposed, maxExposed, penalty);
      && (r.Sized? <==> entry > 0.0 && stop > 0.0 && entry != stop)
      && (r.Sized? ==>
            var a := Allowances(equity, entry, stop, confidence, maxRisk, maxSize, exposed, maxExposed, penalty);
            && r.quantity * entry == Max(0.0, MinOf(a))
            && (r.quantity > 0.0 <==> a[0] > 0.0 && a[1] > 0.0 && a[2] > 0.0))
  {
    if ValidPrices(entry, stop) {
      var a := Allowances(equity, entry, stop, confidence, maxRisk, maxSize, exposed, maxExposed, penalty);
      RawIsAllowance(equity, entry, stop, confidence, maxRisk, maxSize, exposed, maxExposed, penalty);
      assert a[1] == maxSize * equity && a[2] == (maxExposed - exposed) * equity;
      hide RawNotional, Allowances;
      SmallestOfThree(a, a[0], a[1], a[2]);
      hide MinOf;
      QuotientSign(Max(0.0, MinOf(a)), entry);
    }
  }

  lemma RawIsAllowance(equity: real, entry: real, stop: real, confidence: real, maxRisk: real, maxSize: real,
                       exposed: real, maxExposed: real, penalty: real)
    requires ValidPrices(entry, stop)
    ensures RawNotional(equity, entry, stop, maxRisk, confidence, penalty)
         == Allowances(equity, entry, stop, confidence, maxRisk, maxSize, exposed, maxExposed, penalty)[0]
  {
    assert ConfidenceScalar(confidence) == 0.5 + 0.5 * Part(confidence);
    assert CorrelationScalar(penalty) == 1.0 - 0.6 * Part(penalty);
    hide ConfidenceScalar, CorrelationScalar, Part;
  }

  lemma SmallestOfThree(a: seq<real>, x: real, y: real, z: real)
    requires |a| == 3 && a[0] == x && a[1] == y && a[2] == z
    ensures MinOf(a) == Min(Min(x, y), z)
  {
    assert a[1..][1..] == [z] && a[1..][0] == y;
  }
}
