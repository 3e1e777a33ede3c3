/**
 * The walk-forward backtest: one pass over the candles, one position at a time. What the strategies and the regime
 * say is any function of the candles up to the current one; it may fail, as the scoring code may raise. The gates
 * that turn a scored signal into a decision are the engine's own, fee included.
 */
module Backtest {
  import opened Common
  import Candles
  import opened EquityCurve
  import Indicators
  import opened PositionSizing

  type Candle = Candles.Bar

  /** The part of the signals that agrees with the chosen direction. */
  type Ratio = x: real | 0.0 < x <= 1.0 witness 1.0

  /**
   * What the ensemble makes of one window before costs: nothing, or a direction with the average confidence and
   * expected return of the signals behind it, and its score without the cost penalty.
   */
  datatype Signal =
    | Silent
    | Scored(side: Side, confidence: real, expectedReturn: real, score: real, agreement: Ratio, crash: bool)

  datatype Decision = Decision(action: Option<Side>, confidence: real)

  type Strategy = seq<Candle> -> Option<Signal>

  datatype Setup = Setup(start: real, maxRisk: real, maxSize: real, feeRate: real, slippageBps: real, spotOnly: bool,
                         warmup: nat, minConfidence: real, minEdge: real)

  datatype Reason = StopHit | TargetHit | OppositeSignal

  /** A position; `side` is the side that opened it, so `Buy` is a long and `Sell` a short. */
  datatype Position = Position(side: Side, entryIndex: nat, entryPrice: real, quantity: real)

  datatype Trade = Trade(position: Position, exitIndex: nat, exitPrice: real, pnl: real, reason: Reason)

  datatype Account = Account(equity: real, peak: real, maxDrawdown: real, curve: seq<real>,
                             trades: seq<Trade>, position: Option<Position>)

  datatype Report = Report(trades: seq<Trade>, curve: seq<real>, finalEquity: real,
                           maxDrawdown: real, winRate: real, totalReturn: real)

  // ----- from a signal to a decision -----

  /** The expected return net of the fee clears the minimum edge. */
  predicate HasEdge(setup: Setup, g: Signal)
    requires g.Scored?
  {
    g.expectedReturn - setup.feeRate >= setup.minEdge
  }

  /** The score is positive after five times the fee. */
  predicate HasScore(setup: Setup, g: Signal)
    requires g.Scored?
  {
    (g.score - setup.feeRate * 5.0) * g.agreement > 0.0
  }

  function Decide(setup: Setup, g: Signal): Decision {
    match g
    case Silent => Decision(None, 0.0)
    case Scored(side, confidence, _, _, _, crash) =>
      if confidence < setup.minConfidence || !HasEdge(setup, g) || !HasScore(setup, g) || crash
      then Decision(None, confidence)
      else Decision(Some(side), confidence)
  }

  // ----- prices, levels, profit -----

  const ATR_PERIOD := 14

  function Closes(window: seq<Candle>): (r: seq<real>)
    ensures |r| == |window|
  {
    seq(|window|, i requires 0 <= i < |window| => window[i].close)
  }

  function AtrNow(window: seq<Candle>): real
    requires window != []
  {
    Indicators.Atr(Candles.Highs(window), Candles.Lows(window), Closes(window), ATR_PERIOD)[|window| - 1]
  }

  function Opposite(side: Side): Side {
    if side.Buy? then Sell else Buy
  }

  /** Slippage is always against the trader: a buy pays more, a sell gets less. */
  function FillPrice(setup: Setup, price: real, side: Side): real {
    price * (if side.Buy? then 1.0 + setup.slippageBps / 10000.0 else 1.0 - setup.slippageBps / 10000.0)
  }

  function StopOf(side: Side, entry: real, atr: real): real {
    if side.Buy? then entry - atr * 1.5 else entry + atr * 1.5
  }

  function TargetOf(side: Side, entry: real, atr: real): real {
    if side.Buy? then entry + atr * 1.5 * 1.5 else entry - atr * 1.5 * 1.5
  }

  /** `price` is at or beyond `level` in the direction that hurts (or, for the opposite side, helps) `side`. */
  predicate AtOrBelow(side: Side, price: real, level: real) {
    if side.Buy? then price <= level else price >= level
  }

  function ExitReason(p: Position, price: real, atr: real, action: Option<Side>): Option<Reason> {
    if AtOrBelow(p.side, price, StopOf(p.side, p.entryPrice, atr)) then Some(StopHit)
    else if AtOrBelow(Opposite(p.side), price, TargetOf(p.side, p.entryPrice, atr)) then Some(TargetHit)
    else if action == Some(Opposite(p.side)) then Some(OppositeSignal)
    else None
  }

  /** The fee is charged on the way out only. */
  function Profit(setup: Setup, p: Position, exitPrice: real): real {
    var gain := if p.side.Buy? then exitPrice - p.entryPrice else p.entryPrice - exitPrice;
    gain * p.quantity - exitPrice * p.quantity * setup.feeRate
  }

  /** How far the price has moved in the position's favour. */
  function Move(p: Position, price: real): real {
    if p.side.Buy? then price - p.entryPrice else p.entryPrice - price
  }

  /** For longs and shorts alike: out at 1.5 ATR against, at 2.25 ATR in favour, or in between when the signal turns. */
  lemma ExitByMove(p: Position, price: real, atr: real, action: Option<Side>)
    requires atr > 0.0
    ensures ExitReason(p, price, atr, action) == Some(StopHit) <==> Move(p, price) <= -1.5 * atr
    ensures ExitReason(p, price, atr, action) == Some(TargetHit) <==> Move(p, price) >= 2.25 * atr
    ensures ExitReason(p, price, atr, action) == Some(OppositeSignal) <==>
      (-1.5 * atr < Move(p, price) < 2.25 * atr && action.Some? && action.value != p.side)
  {
  }

  /** In and out at one market price loses the slippage twice and the exit fee, on either side. */
  lemma FlatRoundTripLoses(setup: Setup, side: Side, i: nat, price: real, quantity: real)
    ensures var exitPrice := FillPrice(setup, price, Opposite(side));
      Profit(setup, Position(side, i, FillPrice(setup, price, side), quantity), exitPrice)
      == -(2.0 * setup.slippageBps / 10000.0 * price * quantity) - exitPrice * quantity * setup.feeRate
  {
  }

  // ----- one candle, and the whole run, as functions -----

  function Opened(start: real): Account {
    Account(start, start, 0.0, [start], [], None)
  }

  /** The end of every step: peak, drawdown and curve take note of the equity. */
  function Mark(a: Account): Account {
    var peak := Max(a.peak, a.equity);
    a.(peak := peak, maxDrawdown := Max(a.maxDrawdown, Fall(peak, a.equity)), curve := a.curve + [a.equity])
  }

  function Closing(setup: Setup, p: Position, i: nat, price: real, reason: Reason): Trade {
    var exitPrice := FillPrice(setup, price, Opposite(p.side));
    Trade(p, i, exitPrice, Profit(setup, p, exitPrice), reason)
  }

  function Close(a: Account, trade: Trade): Account {
    a.(equity := a.equity + trade.pnl, trades := a.trades + [trade], position := None)
  }

  /** `None` stands for the ValueError of a flat market: no volatility, so no stop. */
  function Manage(setup: Setup, a: Account, p: Position, i: nat, price: real, atr: real,
                  action: Option<Side>): Option<Account>
  {
    if atr <= 0.0 then None
    else match ExitReason(p, price, atr, action)
      case None => Some(a)
      case Some(reason) => Some(Close(a, Closing(setup, p, i, price, reason)))
  }

  function SizeFor(setup: Setup, equity: real, side: Side, price: real, atr: real, confidence: real): Sizing {
    SizeOf(equity, price, StopOf(side, price, atr), confidence, setup.maxRisk, setup.maxSize, 0.0, 1.0, 0.0)
  }

  function Enter(setup: Setup, a: Account, i: nat, price: real, atr: real, side: Side,
                 confidence: real): Option<Account>
  {
    if atr <= 0.0 then None
    else match SizeFor(setup, a.equity, side, price, atr, confidence)
      case Invalid => None
      case Sized(quantity, _, _, _) =>
        if quantity > 0.0 then
          Some(a.(position := Some(Position(side, i, FillPrice(setup, price, side), quantity))))
        else Some(a)
  }

  function Act(setup: Setup, a: Account, window: seq<Candle>, decision: Decision): Option<Account>
    requires window != []
  {
    var i, price := |window| - 1, window[|window| - 1].close;
    match a.position
    case Some(p) => Manage(setup, a, p, i, price, AtrNow(window), decision.action)
    case None =>
      match decision.action
      case None => Some(a)
      case Some(side) =>
        if side.Sell? && setup.spotOnly then Some(a)
        else Enter(setup, a, i, price, AtrNow(window), side, decision.confidence)
  }

  function Step(setup: Setup, strategy: Strategy, window: seq<Candle>, a: Account): Option<Account>
    requires window != []
  {
    match strategy(window)
    case None => None
    case Some(signal) =>
      match Act(setup, a, window, Decide(setup, signal))
      case None => None
      case Some(next) => Some(Mark(next))
  }

  /** The account after the first `n` candles. */
  function RunTo(setup: Setup, strategy: Strategy, candles: seq<Candle>, n: nat): Option<Account>
    requires n <= |candles|
  {
    if n <= setup.warmup then Some(Opened(setup.start))
    else match RunTo(setup, strategy, candles, n - 1)
      case None => None
      case Some(a) => Step(setup, strategy, candles[..n], a)
  }

  function Wins(trades: seq<Trade>): nat {
    if trades == [] then 0
    else Wins(trades[..|trades| - 1]) + (if trades[|trades| - 1].pnl > 0.0 then 1 else 0)
  }

  function ReportOf(setup: Setup, a: Account): Report {
    Report(a.trades, a.curve, a.equity, a.maxDrawdown,
           if a.trades == [] then 0.0 else Wins(a.trades) as real / |a.trades| as real,
           if setup.start == 0.0 then 0.0 else (a.equity - setup.start) / setup.start)
  }

  // ----- the loop -----

  /** Stop first, then target, then an opposite signal; any of them closes the position at the slipped price. */
  method TryExit(setup: Setup, p: Position, i: nat, price: real, atr: real, action: Option<Side>)
    returns (trade: Option<Trade>)
    ensures match ExitReason(p, price, atr, action)
            case None => trade == None
            case Some(reason) => trade == Some(Closing(setup, p, i, price, reason))
    ensures atr > 0.0 ==>
      && (trade.Some? && trade.value.reason == StopHit <==> Move(p, price) <= -1.5 * atr)
      && (trade.Some? && trade.value.reason == TargetHit <==> Move(p, price) >= 2.25 * atr)
      && (trade.None? ==> -1.5 * atr < Move(p, price) < 2.25 * atr && action != Some(Opposite(p.side)))
  {
    if atr > 0.0 {
      ExitByMove(p, price, atr, action);
    }
    hide StopOf, TargetOf, FillPrice, Move;
    var hitStop := AtOrBelow(p.side, price, StopOf(p.side, p.entryPrice, atr));
    var hitTarget := AtOrBelow(Opposite(p.side), price, TargetOf(p.side, p.entryPrice, atr));
    if !(hitStop || hitTarget || action == Some(Opposite(p.side))) {
      return None;
    }
    var exitPrice := FillPrice(setup, price, Opposite(p.side));
    var fee := exitPrice * p.quantity * setup.feeRate;
    var pnl := (if p.side.Buy? then exitPrice - p.entryPrice else p.entryPrice - exitPrice) * p.quantity - fee;
    assert pnl == Profit(setup, p, exitPrice);
    var reason := if hitStop then StopHit else if hitTarget then TargetHit else OppositeSignal;
    return Some(Trade(p, i, exitPrice, pnl, reason));
  }

  /** The single pass over the candles, updating equity, peak, drawdown, curve and position in place. */
  method RunBacktest(setup: Setup, strategy: Strategy, candles: seq<Candle>) returns (report: Option<Report>)
    ensures match RunTo(setup, strategy, candles, |candles|)
            case None => report == None
            case Some(a) => report == Some(ReportOf(setup, a))
  {
    hide AtrNow, SizeFor, FillPrice, ExitReason, Closing, ReportOf, Fall, Max, Decide;
    var equity, peak, maxDrawdown := setup.start, setup.start, 0.0;
    var curve: seq<real>, trades: seq<Trade> := [setup.start], [];
    var open: Option<Position> := None;
    var i := setup.warmup;
    while i < |candles|
      invariant setup.warmup <= i && (i <= |candles| || i == setup.warmup)
      invariant RunTo(setup, strategy, candles, if i <= |candles| then i else |candles|)
             == Some(Account(equity, peak, maxDrawdown, curve, trades, open))
    {
      var window := candles[..i + 1];
      ghost var was := Account(equity, peak, maxDrawdown, curve, trades, open);
      assert RunTo(setup, strategy, candles, i + 1) == Step(setup, strategy, window, was);
      RunFails(setup, strategy, candles, i + 1);
      var signal := strategy(window);
      if signal.None? {
        return None;
      }
      var decision := Decide(setup, signal.value);
      var price := candles[i].close;
      match open {
        case Some(p) =>
          var atr := AtrNow(window);
          if atr <= 0.0 {
            return None;
          }
          var closed := TryExit(setup, p, i, price, atr, decision.action);
          if closed.Some? {
            equity := equity + closed.value.pnl;
            trades := trades + [closed.value];
            open := None;
          }
        case None =>
          if decision.action.Some? && !(decision.action == Some(Sell) && setup.spotOnly) {
            var side, atr := decision.action.value, AtrNow(window);
            if atr <= 0.0 {
              return None;
            }
            var size := SizeFor(setup, equity, side, price, atr, decision.confidence);
            if size.Invalid? {
              return None;
            }
            if size.quantity > 0.0 {
              open := Some(Position(side, i, FillPrice(setup, price, side), size.quantity));
            }
          }
      }
      assert Act(setup, was, window, decision) == Some(Account(equity, peak, maxDrawdown, curve, trades, open));
      hide Act;
      peak := Max(peak, equity);
      maxDrawdown := Max(maxDrawdown, Fall(peak, equity));
      curve := curve + [equity];
      i := i + 1;
    }
    report := Some(ReportOf(setup, Account(equity, peak, maxDrawdown, curve, trades, open)));
  }

  /** A run that failed by candle `n` has failed for good. */
  lemma {:induction false} RunFails(setup: Setup, strategy: Strategy, candles: seq<Candle>, n: nat)
    requires n <= |candles|
    ensures RunTo(setup, strategy, candles, n) == None ==> RunTo(setup, strategy, candles, |candles|) == None
    decreases |candles| - n
  {
    if n < |candles| {
      RunFails(setup, strategy, candles, n + 1);
    }
  }

  /** The trades that made money. */
  ghost function Winners(trades: seq<Trade>): set<nat> {
    set i: nat | i < |trades| && trades[i].pnl > 0.0
  }

  lemma {:induction false} WinsExactly(trades: seq<Trade>)
    ensures Wins(trades) == |Winners(trades)| <= |trades|
  {
    if trades == [] {
      assert Winners(trades) == {};
    } else {
      var n := |trades| - 1;
      WinsExactly(trades[..n]);
      assert forall i: nat | i < n :: trades[..n][i] == trades[i];
      assert Winners(trades) == if trades[n].pnl > 0.0 then Winners(trades[..n]) + {n} else Winners(trades[..n]);
    }
  }

  /** The report is the account's own figures; the win rate is the part of its trades that made money. */
  lemma ReportExactly(setup: Setup, a: Account)
    ensures var r := ReportOf(setup, a);
      && r.trades == a.trades && r.curve == a.curve && r.finalEquity == a.equity && r.maxDrawdown == a.maxDrawdown
      && r.winRate * |a.trades| as real == |Winners(a.trades)| as real
      && 0.0 <= r.winRate <= 1.0 && (a.trades == [] ==> r.winRate == 0.0)
      && (setup.start != 0.0 ==> r.totalReturn * setup.start == a.equity - setup.start)
  {
    WinsExactly(a.trades);
    hide Wins, Winners;
    if a.trades != [] {
      var wins, n := Wins(a.trades) as real, |a.trades| as real;
      QuotientTimes(wins, n);
      QuotientOrder(wins, n, 1.0);
      QuotientOrder(wins, n, 0.0);
    }
    if setup.start != 0.0 {
      QuotientTimes(a.equity - setup.start, setup.start);
    }
  }

  /** An entry is sized by the risk to its stop, 1.5 average true ranges away, and by the caps of an empty account. */
  lemma EntrySizeExactly(setup: Setup, equity: real, side: Side, price: real, atr: real, confidence: real)
    ensures var stop := if side.Buy? then price - 1.5 * atr else price + 1.5 * atr;
      var size := SizeFor(setup, equity, side, price, atr, confidence);
      && (size.Sized? <==> price > 0.0 && stop > 0.0 && price != stop)
      && (size.Sized? ==> size.quantity * price
                          == Max(0.0, MinOf(Allowances(equity, price, stop, confidence, setup.maxRisk, setup.maxSize,
                                                       0.0, 1.0, 0.0))))
  {
    var stop := StopOf(side, price, atr);
    hide SizeOf, Allowances, MinOf;
    SizeIsSmallest(equity, price, stop, confidence, setup.maxRisk, setup.maxSize, 0.0, 1.0, 0.0);
  }

  // ----- no look-ahead -----

  /** The run up to candle `n` depends on nothing but the first `n` candles. */
  lemma {:induction false} SamePast(setup: Setup, strategy: Strategy, xs: seq<Candle>, ys: seq<Candle>, n: nat)
    requires n <= |xs| && n <= |ys| && xs[..n] == ys[..n]
    ensures RunTo(setup, strategy, xs, n) == RunTo(setup, strategy, ys, n)
  {
    hide Step;
    if n > setup.warmup {
      assert xs[..n - 1] == xs[..n][..n - 1] == ys[..n - 1];
      SamePast(setup, strategy, xs, ys, n - 1);
    }
  }

  /** What one candle may change: one point more on the curve, at most one more trade, closed on that candle. */
  ghost predicate Grows(a: Account, next: Account, i: nat) {
    && next.curve == a.curve + [next.equity]
    && (next.trades == a.trades || (|next.trades| == |a.trades| + 1 && next.trades[..|a.trades|] == a.trades
                                    && next.trades[|a.trades|].exitIndex == i))
  }

  lemma StepGrows(setup: Setup, strategy: Strategy, window: seq<Candle>, a: Account)
    requires window != []
    ensures Step(setup, strategy, window, a).Some? ==>
      Grows(a, Step(setup, strategy, window, a).value, |window| - 1)
  {
    hide AtrNow, SizeFor, ExitReason, FillPrice, Profit, Fall, Decide;
  }

  /** `past` is how the account stood earlier on the way to `now`. */
  ghost predicate Earlier(past: Account, now: Account, n: nat) {
    && past.curve <= now.curve
    && past.trades <= now.trades
    && forall k | |past.trades| <= k < |now.trades| :: n <= now.trades[k].exitIndex
  }

  lemma {:induction false} RunsOn(setup: Setup, strategy: Strategy, candles: seq<Candle>, n: nat, m: nat)
    requires n <= m <= |candles|
    requires RunTo(setup, strategy, candles, m).Some?
    ensures RunTo(setup, strategy, candles, n).Some?
    ensures Earlier(RunTo(setup, strategy, candles, n).value, RunTo(setup, strategy, candles, m).value, n)
    decreases m
  {
    hide Step;
    if n < m && setup.warmup < m {
      RunsOn(setup, strategy, candles, n, m - 1);
      StepGrows(setup, strategy, candles[..m], RunTo(setup, strategy, candles, m - 1).value);
    }
  }

  function AtLeast0(x: int): nat {
    if x < 0 then 0 else x
  }

  lemma {:induction false} CurveLength(setup: Setup, strategy: Strategy, candles: seq<Candle>, n: nat)
    requires n <= |candles| && RunTo(setup, strategy, candles, n).Some?
    ensures var a := RunTo(setup, strategy, candles, n).value;
      |a.curve| == 1 + AtLeast0(n - setup.warmup) && a.curve[|a.curve| - 1] == a.equity
  {
    hide Step;
    if n > setup.warmup {
      CurveLength(setup, strategy, candles, n - 1);
      StepGrows(setup, strategy, candles[..n], RunTo(setup, strategy, candles, n - 1).value);
    }
  }

  /**
   * No look-ahead: if the whole history can be run, so can its first `n` candles, and that shorter run is exactly
   * the beginning of the longer one, both the equity curve and the trades; every further trade closes later.
   */
  lemma Causal(setup: Setup, strategy: Strategy, candles: seq<Candle>, n: nat)
    requires n <= |candles| && RunTo(setup, strategy, candles, |candles|).Some?
    ensures RunTo(setup, strategy, candles[..n], n).Some?
    ensures var past := RunTo(setup, strategy, candles[..n], n).value;
      var whole := RunTo(setup, strategy, candles, |candles|).value;
      && |past.curve| == 1 + AtLeast0(n - setup.warmup)
      && past.curve <= whole.curve
      && past.trades <= whole.trades
      && forall k | |past.trades| <= k < |whole.trades| :: n <= whole.trades[k].exitIndex
  {
    assert candles[..n][..n] == candles[..n];
    SamePast(setup, strategy, candles[..n], candles, n);
    RunsOn(setup, strategy, candles, n, |candles|);
    CurveLength(setup, strategy, candles, n);
  }

  // ----- one position at a time -----

  ghost predicate InOrder(setup: Setup, trades: seq<Trade>, n: nat) {
    && (forall k | 0 <= k < |trades| ::
          setup.warmup <= trades[k].position.entryIndex < trades[k].exitIndex < n)
    && (forall j, k | 0 <= j < k < |trades| :: trades[j].exitIndex < trades[k].position.entryIndex)
  }

  ghost predicate Orderly(setup: Setup, a: Account, n: nat) {
    && InOrder(setup, a.trades, n)
    && (a.position.Some? ==>
          && setup.warmup <= a.position.value.entryIndex < n
          && forall k | 0 <= k < |a.trades| :: a.trades[k].exitIndex < a.position.value.entryIndex)
  }

  lemma StepOrderly(setup: Setup, strategy: Strategy, window: seq<Candle>, a: Account)
    requires setup.warmup < |window| && Orderly(setup, a, |window| - 1)
    ensures Step(setup, strategy, window, a).Some? ==>
      Orderly(setup, Step(setup, strategy, window, a).value, |window|)
  {
    hide AtrNow, SizeFor, ExitReason, FillPrice, Profit, Fall, Decide;
  }

  /** Trades never overlap: each opens after the warm-up, closes on a later candle, and before the next one opens. */
  lemma {:induction false} TradesDisjoint(setup: Setup, strategy: Strategy, candles: seq<Candle>, n: nat)
    requires n <= |candles| && RunTo(setup, strategy, candles, n).Some?
    ensures Orderly(setup, RunTo(setup, strategy, candles, n).value, n)
  {
    hide Step;
    if n > setup.warmup {
      TradesDisjoint(setup, strategy, candles, n - 1);
      StepOrderly(setup, strategy, candles[..n], RunTo(setup, strategy, candles, n - 1).value);
    }
  }

  // ----- the equity curve is realised profit -----

  function Realised(trades: seq<Trade>): real {
    if trades == [] then 0.0 else Realised(trades[..|trades| - 1]) + trades[|trades| - 1].pnl
  }

  lemma StepRealises(setup: Setup, strategy: Strategy, window: seq<Candle>, a: Account)
    requires window != [] && Step(setup, strategy, window, a).Some?
    ensures var next := Step(setup, strategy, window, a).value;
      || (next.trades == a.trades && next.equity == a.equity)
      || (next.trades != [] && next.trades[..|next.trades| - 1] == a.trades
          && next.equity == a.equity + next.trades[|next.trades| - 1].pnl)
  {
    hide AtrNow, SizeFor, ExitReason, FillPrice, Profit, Fall, Decide;
  }

  lemma {:induction false} EquityIsRealised(setup: Setup, strategy: Strategy, candles: seq<Candle>, n: nat)
    requires n <= |candles| && RunTo(setup, strategy, candles, n).Some?
    ensures var a := RunTo(setup, strategy, candles, n).value; a.equity == setup.start + Realised(a.trades)
  {
    hide Step;
    if n > setup.warmup {
      EquityIsRealised(setup, strategy, candles, n - 1);
      StepRealises(setup, strategy, candles[..n], RunTo(setup, strategy, candles, n - 1).value);
    }
  }

  /** Every point of the curve, not only the last, is the start plus the profit of the trades closed by then. */
  lemma CurveIsRealised(setup: Setup, strategy: Strategy, candles: seq<Candle>, n: nat)
    requires setup.warmup <= n <= |candles| && RunTo(setup, strategy, candles, |candles|).Some?
    ensures var whole := RunTo(setup, strategy, candles, |candles|).value;
      && n - setup.warmup < |whole.curve|
      && exists c: nat ::
           && c <= |whole.trades|
           && whole.curve[n - setup.warmup] == setup.start + Realised(whole.trades[..c])
           && (forall k | 0 <= k < |whole.trades| :: whole.trades[k].exitIndex < n <==> k < c)
  {
    hide Step;
    var whole := RunTo(setup, strategy, candles, |candles|).value;
    RunsOn(setup, strategy, candles, n, |candles|);
    var past := RunTo(setup, strategy, candles, n).value;
    CurveLength(setup, strategy, candles, n);
    EquityIsRealised(setup, strategy, candles, n);
    TradesDisjoint(setup, strategy, candles, n);
    assert whole.trades[..|past.trades|] == past.trades;
    assert whole.curve[n - setup.warmup] == past.curve[n - setup.warmup];
  }

  // ----- the drawdown of a run is the one-pass drawdown of its curve -----

  lemma ActKeepsMarks(setup: Setup, a: Account, window: seq<Candle>, decision: Decision)
    requires window != [] && Act(setup, a, window, decision).Some?
    ensures var next := Act(setup, a, window, decision).value;
      next.peak == a.peak && next.maxDrawdown == a.maxDrawdown && next.curve == a.curve
  {
    hide AtrNow, SizeFor, ExitReason, FillPrice, Profit;
  }

  lemma StepMarks(setup: Setup, strategy: Strategy, window: seq<Candle>, a: Account)
    requires window != [] && Step(setup, strategy, window, a).Some?
    ensures var next := Step(setup, strategy, window, a).value;
      && next.peak == Max(a.peak, next.equity)
      && next.maxDrawdown == Max(a.maxDrawdown, Fall(next.peak, next.equity))
  {
    hide Act, Fall, Decide;
    ActKeepsMarks(setup, a, window, Decide(setup, strategy(window).value));
  }

  lemma {:induction false} MarksCurve(setup: Setup, strategy: Strategy, candles: seq<Candle>, n: nat)
    requires n <= |candles| && RunTo(setup, strategy, candles, n).Some?
    ensures var a := RunTo(setup, strategy, candles, n).value;
      && a.curve != [] && a.curve[0] == setup.start
      && a.peak == MaxOf(a.curve) && a.maxDrawdown == OnePass(a.curve)
  {
    hide Step, Fall;
    var a := RunTo(setup, strategy, candles, n).value;
    if n > setup.warmup {
      var before := RunTo(setup, strategy, candles, n - 1).value;
      MarksCurve(setup, strategy, candles, n - 1);
      StepGrows(setup, strategy, candles[..n], before);
      StepMarks(setup, strategy, candles[..n], before);
      MaxOfAppend(before.curve, a.equity);
      assert a.curve[..|before.curve|] == before.curve;
    }
  }

  /**
   * The drawdown a run reports is the deepest fall between any two points of its curve exactly when no point below
   * zero hides a deeper fall, from an earlier positive level under the peak; so whenever equity never goes negative.
   */
  lemma DrawdownIsDeepestFall(setup: Setup, strategy: Strategy, candles: seq<Candle>, n: nat)
    requires n <= |candles| && setup.start > 0.0 && RunTo(setup, strategy, candles, n).Some?
    ensures var a := RunTo(setup, strategy, candles, n).value;
      && a.curve != [] && a.curve[0] > 0.0
      && (DeepestFall(a.curve, a.maxDrawdown) <==> NoHiddenFall(a.curve, a.maxDrawdown))
      && (NeverNegative(a.curve) ==> DeepestFall(a.curve, a.maxDrawdown) && a.maxDrawdown <= 1.0)
  {
    hide RunTo, NoHiddenFall, DeepestFall;
    MarksCurve(setup, strategy, candles, n);
    OnePassExactly(RunTo(setup, strategy, candles, n).value.curve);
  }
}
