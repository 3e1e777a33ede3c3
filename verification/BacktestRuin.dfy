/**
 * Scripted runs. They show that the settings of `BacktestRisk` which keep equity from going negative are the only
 * ones, and that outside them the reported drawdown can miss the deepest fall.
 */
module BacktestRuin {
  import opened Common
  import opened EquityCurve
  import opened PositionSizing
  import opened Backtest
  import opened BacktestRisk
  import Candles
  import Indicators

  // ----- candles at given prices -----

  function BarAt(price: real, range: real): Candle {
    Candles.Bar(0, price, price + range, price, price, 0.0)
  }

  /** `quiet` candles at price 1, then the given closes. */
  function PricedAfter(quiet: nat, prices: seq<real>, range: real): (r: seq<Candle>)
    ensures |r| == quiet + |prices|
    ensures forall i | 0 <= i < |r| :: r[i] == BarAt(if i < quiet then 1.0 else prices[i - quiet], range)
  {
    seq(quiet + |prices|, i requires 0 <= i < quiet + |prices| =>
      BarAt(if i < quiet then 1.0 else prices[i - quiet], range))
  }

  function Previous(window: seq<Candle>, i: nat): real
    requires i < |window|
  {
    if i == 0 then window[0].close else window[i - 1].close
  }

  function RangesOf(window: seq<Candle>): (r: seq<real>)
    requires window != []
    ensures |r| == |window|
    ensures forall i | 0 <= i < |r| :: r[i] == Indicators.RangeOf(window[i].high, window[i].low, Previous(window, i))
  {
    hide Indicators.RangeOf;
    Indicators.TrueRanges(Candles.Highs(window), Candles.Lows(window), Closes(window))
  }

  lemma AtrIs(window: seq<Candle>)
    requires window != []
    ensures AtrNow(window) == Indicators.Ema(RangesOf(window), 2.0 / 15.0)[|window| - 1]
  {
    assert Indicators.Alpha(ATR_PERIOD) == 2.0 / 15.0;
    hide Indicators.Ema, Indicators.TrueRanges;
  }

  /** The range of a bar that opens where it closes: how far it is from the close before, wick included. */
  lemma BarRange(price: real, range: real, previous: real)
    requires range > 0.0
    ensures var r := Indicators.RangeOf(price + range, price, previous);
      r >= range && (price >= previous ==> r == price - previous + range)
  {
  }

  /** The average true range of at least one candle lies between bounds of the ranges. */
  lemma AtrWithin(window: seq<Candle>, lo: real, hi: real)
    requires window != [] && forall i | 0 <= i < |window| :: lo <= RangesOf(window)[i] <= hi
    ensures lo <= AtrNow(window) <= hi
  {
    hide RangesOf, Indicators.Ema, AtrNow;
    AtrIs(window);
    Indicators.EmaWithin(RangesOf(window), 2.0 / 15.0, lo, hi);
  }

  /** Every such candle ranges at least as far as its wick. */
  lemma AtrAtLeast(quiet: nat, prices: seq<real>, range: real, n: nat)
    requires range > 0.0 && 0 < n <= quiet + |prices|
    ensures AtrNow(PricedAfter(quiet, prices, range)[..n]) >= range
    ensures n <= quiet ==> AtrNow(PricedAfter(quiet, prices, range)[..n]) == range
  {
    hide RangesOf, AtrNow, Indicators.RangeOf;
    var window := PricedAfter(quiet, prices, range)[..n];
    var ranges := RangesOf(window);
    forall i | 0 <= i < n
      ensures ranges[i] >= range && (n <= quiet ==> ranges[i] == range)
    {
      BarRange(window[i].close, range, Previous(window, i));
    }
    if n <= quiet {
      AtrWithin(window, range, range);
    } else {
      assert forall i | 0 <= i < n :: ranges[i] in ranges;
      AtrWithin(window, range, MaxOf(ranges));
    }
  }

  lemma LastBlend(values: seq<real>, alpha: real)
    requires |values| > 1
    ensures var n := |values| - 1;
      && Indicators.Ema(values, alpha)[n]
         == Indicators.Blend(alpha, values[n], Indicators.Ema(values[..n], alpha)[n - 1])
      && Indicators.Ema(values, alpha)[..n] == Indicators.Ema(values[..n], alpha)
  {
  }

  /** One candle more: a blend of its range and the average before it. */
  lemma AtrStep(window: seq<Candle>, price: real, range: real)
    requires window != [] && range > 0.0 && price >= window[|window| - 1].close
    ensures AtrNow(window + [BarAt(price, range)])
         == 2.0 / 15.0 * (price - window[|window| - 1].close + range) + 13.0 / 15.0 * AtrNow(window)
  {
    hide RangesOf, AtrNow, Indicators.RangeOf, Indicators.Ema;
    var n, next := |window|, window + [BarAt(price, range)];
    AtrIs(window);
    AtrIs(next);
    forall i | 0 <= i <= n
      ensures i < n ==> RangesOf(next)[i] == RangesOf(window)[i]
      ensures i == n ==> RangesOf(next)[i] == price - window[n - 1].close + range
    {
      if i == n {
        BarRange(price, range, window[n - 1].close);
      }
    }
    assert RangesOf(next)[..n] == RangesOf(window);
    LastBlend(RangesOf(next), 2.0 / 15.0);
  }

  // ----- a jump dies away -----

  /** How much nearer to a constant `k` more values bring the average, at least. */
  function Settling(k: nat): (t: real)
    ensures t >= 1.0
  {
    1.0 + 2.0 * k as real / 13.0
  }

  lemma SettlingGrows(k: nat)
    ensures 13.0 / 15.0 * Settling(k + 1) <= Settling(k)
  {
  }

  lemma DecayStep(gap: real, k: nat, after: real)
    requires gap >= 0.0 && after == gap * (13.0 / 15.0)
    ensures after * Settling(k + 1) <= gap * Settling(k)
  {
    SettlingGrows(k);
    hide Settling;
    var slower := 13.0 / 15.0 * Settling(k + 1);
    assert after * Settling(k + 1) == gap * slower;
    ProductNonNegative(gap, Settling(k) - slower);
  }

  /** After `k` more values at `c`, the average is that much nearer to it. */
  lemma {:induction false} EmaSettles(values: seq<real>, k: nat, c: real)
    requires k < |values| && forall i | |values| - k <= i < |values| :: values[i] == c
    requires Indicators.Ema(values, 2.0 / 15.0)[|values| - 1 - k] >= c
    ensures var ema := Indicators.Ema(values, 2.0 / 15.0);
      && ema[|values| - 1] >= c
      && (ema[|values| - 1] - c) * Settling(k) <= ema[|values| - 1 - k] - c
  {
    hide Indicators.Ema;
    if k == 0 {
      assert Settling(0) == 1.0;
    } else {
      hide Settling;
      var n := |values| - 1;
      LastBlend(values, 2.0 / 15.0);
      var before := Indicators.Ema(values[..n], 2.0 / 15.0);
      assert Indicators.Ema(values, 2.0 / 15.0)[n - k] == before[n - k];
      EmaSettles(values[..n], k - 1, c);
      var gap := before[n - 1] - c;
      DecayStep(gap, k - 1, Indicators.Ema(values, 2.0 / 15.0)[n] - c);
    }
  }

  lemma SettledGap(gap: real, t: real, bound: real, range: real)
    requires t > 0.0 && gap * t <= bound <= range * t
    ensures gap <= range
  {
    ProductOrder(gap, range, t);
  }

  lemma JumpRanges(quiet: nat, prices: seq<real>, range: real, y: real, k: nat)
    requires quiet > 0 && range > 0.0 && y >= 1.0 && k < |prices| && forall i | 0 <= i <= k :: prices[i] == y
    ensures var ranges := RangesOf(PricedAfter(quiet, prices, range)[..quiet + 1 + k]);
      forall i | 0 <= i < |ranges| :: ranges[i] == if i == quiet then y - 1.0 + range else range
  {
    hide RangesOf, Indicators.RangeOf;
    var window := PricedAfter(quiet, prices, range)[..quiet + 1 + k];
    forall i | 0 <= i < |window|
      ensures RangesOf(window)[i] == if i == quiet then y - 1.0 + range else range
    {
      BarRange(window[i].close, range, Previous(window, i));
    }
  }

  lemma JumpSettles(ranges: seq<real>, quiet: nat, range: real, y: real, k: nat)
    requires |ranges| == quiet + 1 + k && y >= 1.0
    requires forall i | 0 <= i < |ranges| :: ranges[i] == if i == quiet then y - 1.0 + range else range
    ensures (Indicators.Ema(ranges, 2.0 / 15.0)[|ranges| - 1] - range) * Settling(k) <= y - 1.0
  {
    hide Indicators.Ema, Settling;
    Indicators.EmaWithin(ranges, 2.0 / 15.0, range, y - 1.0 + range);
    EmaSettles(ranges, k, range);
  }

  /** A jump to `y` and enough candles that stay there. */
  lemma CalmAgain(quiet: nat, prices: seq<real>, range: real, y: real, k: nat)
    requires quiet > 0 && range > 0.0 && y >= 1.0 && k < |prices| && forall i | 0 <= i <= k :: prices[i] == y
    requires y - 1.0 <= range * Settling(k)
    ensures AtrNow(PricedAfter(quiet, prices, range)[..quiet + 1 + k]) <= 2.0 * range
  {
    hide *;
    var window := PricedAfter(quiet, prices, range)[..quiet + 1 + k];
    JumpRanges(quiet, prices, range, y, k);
    AtrIs(window);
    JumpSettles(RangesOf(window), quiet, range, y, k);
    SettledGap(AtrNow(window) - range, Settling(k), y - 1.0, range);
  }

  /** Enough candles for any jump to die away. */
  lemma EnoughCalm(y: real, range: real) returns (k: nat)
    requires y >= 1.0 && range > 0.0
    ensures y - 1.0 <= range * Settling(k)
  {
    var needed := 13.0 * (y - 1.0) / (2.0 * range);
    QuotientTimes(13.0 * (y - 1.0), 2.0 * range);
    k := if needed <= 0.0 then 0 else needed.Floor + 1;
    ProductOrder(needed, k as real, 2.0 * range);
    assert range * Settling(k) == range + k as real * (2.0 * range) / 13.0;
  }

  // ----- scenes -----

  predicate Trades(setup: Setup) {
    Sane(setup) && setup.maxRisk > 0.0 && setup.maxSize > 0.0
  }

  /** One signal a candle from the end of the warm-up, at price 1 first and then at the given prices. */
  datatype Scene = Scene(script: seq<Signal>, prices: seq<real>, range: real)

  predicate Playable(scene: Scene) {
    scene.range > 0.0 && |scene.script| == |scene.prices| + 1
  }

  function ScriptOf(setup: Setup, scene: Scene): Strategy {
    (window: seq<Candle>) =>
      if setup.warmup < |window| <= setup.warmup + |scene.script| then Some(scene.script[|window| - 1 - setup.warmup])
      else None
  }

  function BarsOf(setup: Setup, scene: Scene): seq<Candle> {
    PricedAfter(setup.warmup + 1, scene.prices, scene.range)
  }

  /** The account after the first `k` signals of the scene. */
  function After(setup: Setup, scene: Scene, k: nat): Option<Account>
    requires Playable(scene) && k <= |scene.script|
  {
    RunTo(setup, ScriptOf(setup, scene), BarsOf(setup, scene), setup.warmup + k)
  }

  function PriceAt(scene: Scene, k: nat): real
    requires Playable(scene) && k < |scene.script|
  {
    if k == 0 then 1.0 else scene.prices[k - 1]
  }

  function AtrAt(setup: Setup, scene: Scene, k: nat): real
    requires Playable(scene) && k < |scene.script|
  {
    AtrNow(BarsOf(setup, scene)[..setup.warmup + k + 1])
  }

  /** The strategy only ever gives signals of this kind. */
  ghost predicate Draws(strategy: Strategy, signals: iset<Signal>) {
    forall window: seq<Candle> | strategy(window).Some? :: strategy(window).value in signals
  }

  lemma SceneDraws(setup: Setup, scene: Scene, signals: iset<Signal>)
    requires forall k | 0 <= k < |scene.script| :: scene.script[k] in signals
    ensures Draws(ScriptOf(setup, scene), signals)
  {
  }

  lemma ScenePrices(setup: Setup, scene: Scene)
    requires forall k | 0 <= k < |scene.prices| :: scene.prices[k] >= 0.0
    ensures PricesNonNegative(BarsOf(setup, scene))
  {
  }

  lemma SceneAtr(setup: Setup, scene: Scene, k: nat)
    requires Playable(scene) && k < |scene.script|
    ensures AtrAt(setup, scene, k) >= scene.range > 0.0
    ensures k == 0 ==> AtrAt(setup, scene, k) == scene.range
  {
    hide AtrNow;
    AtrAtLeast(setup.warmup + 1, scene.prices, scene.range, setup.warmup + k + 1);
  }

  /** The equity and open position of a run, and if `solvent`, that it was never below zero. */
  ghost predicate IsAt(r: Option<Account>, equity: real, position: Option<Position>, solvent: bool) {
    r.Some? && r.value.equity == equity && r.value.position == position && (solvent ==> NeverNegative(r.value.curve))
  }

  ghost predicate Reaches(setup: Setup, scene: Scene, k: nat, r: Option<Account>)
    requires Playable(scene) && k <= |scene.script|
  {
    r == After(setup, scene, k)
  }

  /** Where a run stands after `k` signals; put so that the run is not unfolded wherever this is mentioned. */
  ghost predicate Stands(setup: Setup, scene: Scene, k: nat, equity: real, position: Option<Position>, solvent: bool)
    requires Playable(scene) && k <= |scene.script|
  {
    forall r | Reaches(setup, scene, k, r) :: IsAt(r, equity, position, solvent)
  }

  lemma StandsIs(setup: Setup, scene: Scene, k: nat, equity: real, position: Option<Position>, solvent: bool)
    requires Playable(scene) && k <= |scene.script|
    ensures Stands(setup, scene, k, equity, position, solvent)
       <==> IsAt(After(setup, scene, k), equity, position, solvent)
  {
    hide After, IsAt;
    assert Reaches(setup, scene, k, After(setup, scene, k));
  }

  /** The step of one signal. */
  lemma SceneStep(setup: Setup, scene: Scene, k: nat) returns (window: seq<Candle>)
    requires Playable(scene) && k < |scene.script| && After(setup, scene, k).Some?
    ensures |window| == setup.warmup + k + 1 && window[setup.warmup + k].close == PriceAt(scene, k)
    ensures AtrNow(window) == AtrAt(setup, scene, k) >= scene.range
    ensures var next := Act(setup, After(setup, scene, k).value, window, Decide(setup, scene.script[k]));
      After(setup, scene, k + 1) == if next.Some? then Some(Mark(next.value)) else None
  {
    hide AtrNow, Act, Decide, Mark;
    window := BarsOf(setup, scene)[..setup.warmup + k + 1];
    SceneAtr(setup, scene, k);
  }

  /** An account that has acted and been marked stands where the action left it. */
  lemma Marked(a: Account, next: Account, solvent: bool)
    requires next.curve == a.curve && (solvent ==> NeverNegative(a.curve))
    ensures IsAt(Some(Mark(next)), next.equity, next.position, solvent && next.equity >= 0.0)
  {
    hide Fall, Max;
  }

  lemma Starts(setup: Setup, scene: Scene)
    requires Playable(scene)
    ensures Stands(setup, scene, 0, setup.start, None, setup.start >= 0.0)
  {
    StandsIs(setup, scene, 0, setup.start, None, setup.start >= 0.0);
  }

  function Entry(setup: Setup, scene: Scene, k: nat, side: Side, quantity: real): Position
    requires Playable(scene) && k < |scene.script|
  {
    Position(side, setup.warmup + k, FillPrice(setup, PriceAt(scene, k), side), quantity)
  }

  /** The size of an entry on the `k`th signal. */
  function SizeAt(setup: Setup, scene: Scene, k: nat, equity: real): Sizing
    requires Playable(scene) && k < |scene.script| && scene.script[k].Scored?
  {
    SizeFor(setup, equity, scene.script[k].side, PriceAt(scene, k), AtrAt(setup, scene, k), scene.script[k].confidence)
  }

  /** Nothing is held and the signal opens a position. */
  lemma Enters(setup: Setup, scene: Scene, k: nat, equity: real, solvent: bool, quantity: real)
    requires Playable(scene) && k < |scene.script| && Acts(setup, scene.script[k])
    requires Stands(setup, scene, k, equity, None, solvent) && equity >= 0.0
    requires scene.script[k].side.Buy? || !setup.spotOnly
    requires SizeAt(setup, scene, k, equity).Sized? && SizeAt(setup, scene, k, equity).quantity == quantity > 0.0
    ensures Stands(setup, scene, k + 1, equity, Some(Entry(setup, scene, k, scene.script[k].side, quantity)),
                   solvent)
  {
    hide AtrNow, SizeFor, FillPrice, After, Decide, Mark;
    ActsExactly(setup, scene.script[k]);
    StandsIs(setup, scene, k, equity, None, solvent);
    var window := SceneStep(setup, scene, k);
    var a := After(setup, scene, k).value;
    Marked(a, a.(position := Some(Entry(setup, scene, k, scene.script[k].side, quantity))), solvent);
    StandsIs(setup, scene, k + 1, equity, Some(Entry(setup, scene, k, scene.script[k].side, quantity)), solvent);
  }

  /** A signal against the open position closes it. */
  lemma Exits(setup: Setup, scene: Scene, k: nat, equity: real, p: Position, solvent: bool, after: real)
    requires Playable(scene) && k < |scene.script| && Acts(setup, scene.script[k])
    requires Stands(setup, scene, k, equity, Some(p), solvent) && scene.script[k].side == Opposite(p.side)
    requires after == equity + Profit(setup, p, FillPrice(setup, PriceAt(scene, k), Opposite(p.side)))
    ensures Stands(setup, scene, k + 1, after, None, solvent && after >= 0.0)
  {
    hide AtrNow, FillPrice, Profit, After, Decide, StopOf, TargetOf, Mark;
    ActsExactly(setup, scene.script[k]);
    StandsIs(setup, scene, k, equity, Some(p), solvent);
    var window := SceneStep(setup, scene, k);
    var a := After(setup, scene, k).value;
    var action := Decide(setup, scene.script[k]).action;
    Marked(a, Manage(setup, a, p, setup.warmup + k, PriceAt(scene, k), AtrAt(setup, scene, k), action).value, solvent);
    StandsIs(setup, scene, k + 1, after, None, solvent && after >= 0.0);
  }

  /** Nothing is held, and the signal opens nothing. */
  lemma Waits(setup: Setup, scene: Scene, k: nat, equity: real, solvent: bool)
    requires Playable(scene) && k < |scene.script| && Stands(setup, scene, k, equity, None, solvent)
    requires
      || (scene.script[k].Scored? && !Acts(setup, scene.script[k]))
      || (scene.script[k].Scored? && scene.script[k].side.Sell? && setup.spotOnly)
      || (scene.script[k].Scored? && SizeAt(setup, scene, k, equity).Sized?
          && SizeAt(setup, scene, k, equity).quantity <= 0.0)
    ensures Stands(setup, scene, k + 1, equity, None, solvent && equity >= 0.0)
  {
    hide AtrNow, SizeFor, FillPrice, After, Decide, Mark;
    ActsExactly(setup, scene.script[k]);
    StandsIs(setup, scene, k, equity, None, solvent);
    var window := SceneStep(setup, scene, k);
    var a := After(setup, scene, k).value;
    Marked(a, a, solvent);
    StandsIs(setup, scene, k + 1, equity, None, solvent && equity >= 0.0);
  }

  // ----- sizes -----

  /** The part of the equity that the position cap and the equity itself leave for one entry. */
  function Share(setup: Setup): real {
    Min(setup.maxSize, 1.0)
  }

  function Slip(setup: Setup): real {
    setup.slippageBps / 10000.0
  }

  /** The average true range, as a part of the price, at which any confidence asks for at least the whole equity. */
  function QuietRange(setup: Setup): (r: real)
    requires setup.maxRisk > 0.0
    ensures 0.0 < r <= Min(setup.maxRisk, 1.0) / 3.0
  {
    Min(setup.maxRisk, 1.0) / 3.0
  }

  lemma BudgetAtLeast(equity: real, maxRisk: real, confidence: real, money: real)
    requires equity > 0.0 && maxRisk > 0.0 && money == equity * maxRisk
    ensures RiskBudget(money, confidence, 0.0) >= money / 2.0 > 0.0
  {
    var c := ConfidenceScalar(confidence);
    ProductSign(maxRisk, equity);
    assert CorrelationScalar(0.0) == 1.0;
    hide ConfidenceScalar, CorrelationScalar;
    ProductOrder(0.5, c, money);
    assert RiskBudget(money, confidence, 0.0) == money * c;
  }

  lemma RawAtLeast(equity: real, budget: real, half: real, distance: real, price: real)
    requires equity > 0.0 && price > 0.0 && 0.0 < distance <= half * price && budget >= equity * half
    ensures budget / distance * price >= equity
  {
    QuotientOrder(budget * price, distance, equity);
    ProductOrder(distance, half * price, equity);
    ProductOrder(equity * half, budget, price);
    assert equity * half * price == equity * (half * price);
    QuotientTimes(budget, distance);
    TimesQuotient(budget / distance * price, distance);
    assert budget / distance * price * distance == budget * price;
  }

  lemma SameFactor(x: real, y: real, z: real, product: real)
    requires x == y && (product == x * z || product == z * x)
    ensures product == y * z
  {
  }

  /** The position cap in money, and the share of the equity it leaves. */
  lemma CapIsShare(equity: real, maxSize: real, share: real, limit: real, part: real)
    requires equity > 0.0 && maxSize > 0.0 && share == Min(maxSize, 1.0)
    requires limit == maxSize * equity && part == share * equity
    ensures part == Min(limit, equity) > 0.0
  {
    ProductSign(maxSize, equity);
    if maxSize <= 1.0 {
      FractionAtMost(equity, maxSize, limit);
      SameFactor(share, maxSize, equity, part);
      assert part == limit;
    } else {
      var over := maxSize - 1.0;
      ProductNonNegative(over, equity);
      assert limit == over * equity + equity;
      SameFactor(share, 1.0, equity, part);
      assert part == equity;
    }
  }

  lemma QuietDistance(m: real, q: real, price: real, atr: real)
    requires 0.0 < m <= 1.0 && q == m / 3.0 && price > 0.0 && 0.0 < atr <= q * price
    ensures 1.5 * atr <= m / 2.0 * price && 1.5 * atr <= 0.5 * price
  {
    var whole := m * price;
    FractionAtMost(price, m, whole);
    assert q * price == whole / 3.0 && m / 2.0 * price == whole / 2.0;
  }

  lemma QuietStop(setup: Setup, side: Side, price: real, atr: real)
    requires setup.maxRisk > 0.0 && price > 0.0 && 0.0 < atr <= QuietRange(setup) * price
    ensures var stop := StopOf(side, price, atr);
      ValidPrices(price, stop) && StopDistance(price, stop) == 1.5 * atr <= Min(setup.maxRisk, 1.0) / 2.0 * price
  {
    QuietDistance(Min(setup.maxRisk, 1.0), QuietRange(setup), price, atr);
    hide QuietRange;
  }

  /** A raw notional that covers the equity leaves the caps to decide. */
  lemma SettledIs(equity: real, price: real, stop: real, confidence: real, maxRisk: real, maxSize: real, limit: real)
    requires equity > 0.0 && limit == maxSize * equity && ValidPrices(price, stop)
    requires RawNotional(equity, price, stop, maxRisk, confidence, 0.0) >= equity
    ensures Settled(equity, price, stop, confidence, maxRisk, maxSize) == Min(limit, equity)
  {
    hide RawNotional;
  }

  lemma HalfBudget(setup: Setup, equity: real, confidence: real, money: real, half: real)
    requires setup.maxRisk > 0.0 && equity > 0.0 && money == equity * setup.maxRisk
    requires half == Min(setup.maxRisk, 1.0) / 2.0
    ensures RiskBudget(money, confidence, 0.0) >= equity * half
  {
    BudgetAtLeast(equity, setup.maxRisk, confidence, money);
    hide RiskBudget;
    ProductOrder(half, setup.maxRisk / 2.0, equity);
    assert setup.maxRisk / 2.0 * equity == money / 2.0;
  }

  lemma RawIs(equity: real, price: real, stop: real, maxRisk: real, confidence: real, money: real)
    requires ValidPrices(price, stop) && money == equity * maxRisk
    ensures StopDistance(price, stop) > 0.0 && price > 0.0
    ensures RawNotional(equity, price, stop, maxRisk, confidence, 0.0)
         == RiskBudget(money, confidence, 0.0) / StopDistance(price, stop) * price
  {
    hide RiskBudget;
  }

  lemma FullRaw(setup: Setup, equity: real, price: real, stop: real, confidence: real)
    requires setup.maxRisk > 0.0 && equity > 0.0 && ValidPrices(price, stop)
    requires StopDistance(price, stop) <= Min(setup.maxRisk, 1.0) / 2.0 * price
    ensures RawNotional(equity, price, stop, setup.maxRisk, confidence, 0.0) >= equity
  {
    hide *;
    var money, half := equity * setup.maxRisk, Min(setup.maxRisk, 1.0) / 2.0;
    HalfBudget(setup, equity, confidence, money, half);
    RawIs(equity, price, stop, setup.maxRisk, confidence, money);
    RawAtLeast(equity, RiskBudget(money, confidence, 0.0), half, StopDistance(price, stop), price);
  }

  /** While the market is quiet, an entry takes as much as the caps allow, at any confidence. */
  lemma FullSize(setup: Setup, equity: real, side: Side, price: real, atr: real, confidence: real)
    requires Trades(setup) && equity > 0.0 && price > 0.0 && 0.0 < atr <= QuietRange(setup) * price
    ensures var size := SizeFor(setup, equity, side, price, atr, confidence);
      size.Sized? && size.quantity == Share(setup) * equity / price > 0.0
  {
    hide SizeOf, StopOf, QuietRange, StopDistance, RiskBudget;
    var stop := StopOf(side, price, atr);
    QuietStop(setup, side, price, atr);
    FullRaw(setup, equity, price, stop, confidence);
    SizeIsSettled(equity, price, stop, confidence, setup.maxRisk, setup.maxSize);
    var limit, part := setup.maxSize * equity, Share(setup) * equity;
    CapIsShare(equity, setup.maxSize, Share(setup), limit, part);
    SettledIs(equity, price, stop, confidence, setup.maxRisk, setup.maxSize, limit);
    QuotientSign(part, price);
    hide RawNotional, Share, Settled;
  }

  /** A solvent account takes some position whenever its stop is valid. */
  lemma SomeSize(setup: Setup, equity: real, side: Side, price: real, atr: real, confidence: real)
    requires Trades(setup) && equity > 0.0 && ValidPrices(price, StopOf(side, price, atr))
    ensures var size := SizeFor(setup, equity, side, price, atr, confidence); size.Sized? && size.quantity > 0.0
  {
    hide SizeOf;
    var stop := StopOf(side, price, atr);
    SizeIsSettled(equity, price, stop, confidence, setup.maxRisk, setup.maxSize);
    SettledPositive(setup, equity, price, stop, confidence);
    QuotientSign(Settled(equity, price, stop, confidence, setup.maxRisk, setup.maxSize), price);
    hide Settled;
  }

  lemma SettledPositive(setup: Setup, equity: real, price: real, stop: real, confidence: real)
    requires Trades(setup) && equity > 0.0 && ValidPrices(price, stop)
    ensures Settled(equity, price, stop, confidence, setup.maxRisk, setup.maxSize) > 0.0
  {
    var money := equity * setup.maxRisk;
    var budget, distance := RiskBudget(money, confidence, 0.0), StopDistance(price, stop);
    RawIs(equity, price, stop, setup.maxRisk, confidence, money);
    BudgetAtLeast(equity, setup.maxRisk, confidence, money);
    hide RiskBudget, StopDistance, RawNotional;
    ProductSign(setup.maxSize, equity);
    QuotientSign(budget, distance);
    ProductSign(budget / distance, price);
  }

  /** An account that is empty or in debt takes none. */
  lemma NoSize(setup: Setup, equity: real, side: Side, price: real, atr: real, confidence: real)
    requires Trades(setup) && equity <= 0.0 && ValidPrices(price, StopOf(side, price, atr))
    ensures var size := SizeFor(setup, equity, side, price, atr, confidence); size.Sized? && size.quantity <= 0.0
  {
    hide SizeOf;
    var stop := StopOf(side, price, atr);
    SizeIsSettled(equity, price, stop, confidence, setup.maxRisk, setup.maxSize);
    hide RawNotional;
  }

  // ----- what a long and a short bring -----

  /** What is left of the price of a sale after slippage and fee. */
  function Kept(setup: Setup): real {
    (1.0 - Slip(setup)) * (1.0 - setup.feeRate)
  }

  lemma LongBrings(setup: Setup, p: Position, price: real)
    requires p.side.Buy?
    ensures Profit(setup, p, FillPrice(setup, price, Sell)) == (price * Kept(setup) - p.entryPrice) * p.quantity
  {
    var x, f, q := price * (1.0 - Slip(setup)), setup.feeRate, p.quantity;
    assert FillPrice(setup, price, Sell) == x;
    assert x * q * f == x * f * q;
    assert price * ((1.0 - Slip(setup)) * (1.0 - f)) == x - x * f;
    assert (x - p.entryPrice) * q - x * f * q == (x - x * f - p.entryPrice) * q;
  }

  /** What has to be paid for a price when a short is bought back. */
  function Paid(setup: Setup): real {
    (1.0 + Slip(setup)) * (1.0 + setup.feeRate)
  }

  lemma ShortBrings(setup: Setup, p: Position, price: real)
    requires p.side.Sell?
    ensures Profit(setup, p, FillPrice(setup, price, Buy)) == (p.entryPrice - price * Paid(setup)) * p.quantity
  {
    var x, f, q := price * (1.0 + Slip(setup)), setup.feeRate, p.quantity;
    assert FillPrice(setup, price, Buy) == x;
    assert x * q * f == x * f * q;
    assert price * ((1.0 + Slip(setup)) * (1.0 + f)) == x + x * f;
    assert (p.entryPrice - x) * q - x * f * q == (p.entryPrice - (x + x * f)) * q;
  }

  /** A signal that asks for nothing but the fee, at any fee that is a fraction. */
  function Strong(setup: Setup, side: Side): (g: Signal)
    requires setup.feeRate <= 1.0
    ensures g.Scored? && g.side == side && Acts(setup, g)
  {
    Scored(side, setup.minConfidence, setup.minEdge + 1.0, 6.0, 1.0, false)
  }

  // ----- spot runs -----

  /** A signal that trades in one direction. */
  predicate Says(setup: Setup, g: Signal, side: Side) {
    g.Scored? && g.side == side && Acts(setup, g)
  }

  function LongAt(setup: Setup, scene: Scene, k: nat, equity: real): (p: Position)
    requires Playable(scene) && k < |scene.script| && PriceAt(scene, k) > 0.0
    ensures p.side.Buy?
  {
    Entry(setup, scene, k, Buy, Share(setup) * equity / PriceAt(scene, k))
  }

  lemma FullSizeAt(setup: Setup, scene: Scene, k: nat, equity: real)
    requires Trades(setup) && Playable(scene) && k < |scene.script| && scene.script[k].Scored? && equity > 0.0
    requires PriceAt(scene, k) > 0.0 && AtrAt(setup, scene, k) <= QuietRange(setup) * PriceAt(scene, k)
    ensures var size := SizeAt(setup, scene, k, equity);
      size.Sized? && size.quantity == Share(setup) * equity / PriceAt(scene, k) > 0.0
  {
    hide QuietRange, SizeFor, Share, AtrAt;
    SceneAtr(setup, scene, k);
    FullSize(setup, equity, scene.script[k].side, PriceAt(scene, k), AtrAt(setup, scene, k),
             scene.script[k].confidence);
  }

  /** While the market is quiet a buy signal takes the full size. */
  lemma BuysAll(setup: Setup, scene: Scene, k: nat, equity: real, solvent: bool)
    requires Trades(setup) && Playable(scene) && k < |scene.script| && Says(setup, scene.script[k], Buy)
    requires Stands(setup, scene, k, equity, None, solvent) && equity > 0.0
    requires PriceAt(scene, k) > 0.0 && AtrAt(setup, scene, k) <= QuietRange(setup) * PriceAt(scene, k)
    ensures Stands(setup, scene, k + 1, equity, Some(LongAt(setup, scene, k, equity)), solvent)
  {
    hide QuietRange, SizeAt, Share, After, AtrAt, Acts;
    FullSizeAt(setup, scene, k, equity);
    var quantity := Share(setup) * equity / PriceAt(scene, k);
    Enters(setup, scene, k, equity, solvent, quantity);
    assert LongAt(setup, scene, k, equity) == Entry(setup, scene, k, Buy, quantity);
  }

  /** A sell signal closes a long at the price of its candle. */
  lemma SellsAll(setup: Setup, scene: Scene, k: nat, equity: real, p: Position, solvent: bool, after: real)
    requires Playable(scene) && k < |scene.script| && Says(setup, scene.script[k], Sell) && p.side.Buy?
    requires Stands(setup, scene, k, equity, Some(p), solvent)
    requires after == equity + (PriceAt(scene, k) * Kept(setup) - p.entryPrice) * p.quantity
    ensures Stands(setup, scene, k + 1, after, None, solvent && after >= 0.0)
  {
    hide Kept, Profit, FillPrice, After, Acts;
    LongBrings(setup, p, PriceAt(scene, k));
    Exits(setup, scene, k, equity, p, solvent, after);
  }

  /** What a full long costs. */
  lemma FullCost(setup: Setup, scene: Scene, k: nat, equity: real)
    requires Playable(scene) && k < |scene.script| && PriceAt(scene, k) > 0.0
    ensures var p := LongAt(setup, scene, k, equity); p.entryPrice * p.quantity == Stake(setup) * equity
  {
    var price, part := PriceAt(scene, k), Share(setup) * equity;
    QuotientTimes(part, price);
    assert price * (1.0 + Slip(setup)) * (part / price) == (1.0 + Slip(setup)) * (part / price * price);
  }

  /** A full long that meets a price of zero loses its stake. */
  lemma CrashLosesStake(setup: Setup, scene: Scene, j: nat, k: nat, equity: real, solvent: bool, after: real)
    requires Playable(scene) && j < |scene.script| && k < |scene.script| && PriceAt(scene, j) > 0.0
    requires Says(setup, scene.script[k], Sell) && PriceAt(scene, k) == 0.0
    requires Stands(setup, scene, k, equity, Some(LongAt(setup, scene, j, equity)), solvent)
    requires after == equity * (1.0 - Stake(setup))
    ensures Stands(setup, scene, k + 1, after, None, false)
  {
    hide Stake, After, LongAt, Says, PriceAt, Kept;
    var p := LongAt(setup, scene, j, equity);
    FullCost(setup, scene, j, equity);
    assert after == equity - p.entryPrice * p.quantity;
    SellsAll(setup, scene, k, equity, p, solvent, after);
  }

  /** A full long, and then a price of zero. */
  lemma BuysAndCrashes(setup: Setup, scene: Scene, k: nat, equity: real, solvent: bool, after: real)
    requires Trades(setup) && Playable(scene) && k + 1 < |scene.script| && equity > 0.0
    requires Says(setup, scene.script[k], Buy) && Says(setup, scene.script[k + 1], Sell)
    requires PriceAt(scene, k) > 0.0 && AtrAt(setup, scene, k) <= QuietRange(setup) * PriceAt(scene, k)
    requires PriceAt(scene, k + 1) == 0.0 && after == equity * (1.0 - Stake(setup))
    requires Stands(setup, scene, k, equity, None, solvent)
    ensures Stands(setup, scene, k + 1, equity, Some(LongAt(setup, scene, k, equity)), solvent)
    ensures Stands(setup, scene, k + 2, after, None, false)
  {
    hide *;
    BuysAll(setup, scene, k, equity, solvent);
    CrashLosesStake(setup, scene, k, k + 1, equity, solvent, after);
  }

  /** A quiet entry and a crash. */
  lemma CrashScene(setup: Setup, buy: Signal, sell: Signal) returns (scene: Scene)
    requires setup.maxRisk > 0.0
    ensures Playable(scene) && scene.script == [buy, sell]
    ensures PriceAt(scene, 0) == 1.0 && PriceAt(scene, 1) == 0.0
    ensures AtrAt(setup, scene, 0) <= QuietRange(setup) * PriceAt(scene, 0)
    ensures PricesNonNegative(BarsOf(setup, scene))
  {
    hide QuietRange, AtrAt, BarsOf;
    scene := Scene([buy, sell], [0.0], QuietRange(setup));
    SceneAtr(setup, scene, 0);
    ScenePrices(setup, scene);
  }

  lemma Crashes(setup: Setup, buy: Signal, sell: Signal) returns (scene: Scene)
    requires Trades(setup) && Stake(setup) > 1.0 && setup.start > 0.0
    requires Says(setup, buy, Buy) && Says(setup, sell, Sell)
    ensures Playable(scene) && |scene.script| == 2 && PricesNonNegative(BarsOf(setup, scene))
    ensures After(setup, scene, 2).Some? && After(setup, scene, 2).value.equity < 0.0
  {
    scene := CrashScene(setup, buy, sell);
    hide *;
    Starts(setup, scene);
    var after := setup.start * (1.0 - Stake(setup));
    Debt(setup.start, Stake(setup), after);
    BuysAndCrashes(setup, scene, 0, setup.start, true, after);
    StandsIs(setup, scene, 2, after, None, false);
    AtEquity(After(setup, scene, 2), after);
  }

  lemma StrongSays(setup: Setup, side: Side)
    requires Trades(setup)
    ensures setup.start > 0.0 && setup.feeRate <= 1.0 && Says(setup, Strong(setup, side), side)
  {
  }

  /** When the stake is more than the equity, a price of zero leaves debt. */
  lemma StakeRuins(setup: Setup) returns (strategy: Strategy, candles: seq<Candle>)
    requires Trades(setup) && Stake(setup) > 1.0
    ensures PricesNonNegative(candles)
    ensures var r := RunTo(setup, strategy, candles, |candles|); r.Some? && r.value.equity < 0.0
  {
    hide *;
    StrongSays(setup, Buy);
    StrongSays(setup, Sell);
    var scene := Crashes(setup, Strong(setup, Buy), Strong(setup, Sell));
    strategy, candles := ScriptOf(setup, scene), BarsOf(setup, scene);
    EndIs(setup, scene);
  }

  lemma Debt(equity: real, stake: real, after: real)
    requires equity > 0.0 && stake > 1.0 && after == equity * (1.0 - stake)
    ensures after < 0.0
  {
    ProductSign(stake - 1.0, equity);
  }

  lemma AtEquity(r: Option<Account>, equity: real)
    requires IsAt(r, equity, None, false)
    ensures r.Some? && r.value.equity == equity
  {
  }

  lemma EndIs(setup: Setup, scene: Scene)
    requires Playable(scene)
    ensures |BarsOf(setup, scene)| == setup.warmup + |scene.script|
    ensures RunTo(setup, ScriptOf(setup, scene), BarsOf(setup, scene), |BarsOf(setup, scene)|)
         == After(setup, scene, |scene.script|)
  {
    hide RunTo;
  }

  /** A run whose curve ends below zero for the first time, after two different positive levels. */
  lemma EndsHidden(setup: Setup, scene: Scene, k: nat, equity: real, position: Option<Position>, middle: real,
                   held: Option<Position>, after: real)
    requires setup.start > 0.0 && Playable(scene) && k < |scene.script|
    requires Stands(setup, scene, k, middle, held, true) && 0.0 < middle != setup.start
    requires Stands(setup, scene, |scene.script| - 1, equity, position, true)
    requires Stands(setup, scene, |scene.script|, after, None, false) && after < 0.0
    ensures var r := RunTo(setup, ScriptOf(setup, scene), BarsOf(setup, scene), |BarsOf(setup, scene)|);
      && r.Some? && r.value.equity < 0.0
      && !DeepestFall(r.value.curve, r.value.maxDrawdown)
  {
    hide RunTo, DeepestFall, OnePass, NeverNegative, ScriptOf, BarsOf;
    var w, n, strategy, candles := setup.warmup, |scene.script|, ScriptOf(setup, scene), BarsOf(setup, scene);
    EndIs(setup, scene);
    StandsIs(setup, scene, k, middle, held, true);
    StandsIs(setup, scene, n - 1, equity, position, true);
    StandsIs(setup, scene, n, after, None, false);
    var curve := RunTo(setup, strategy, candles, w + n).value.curve;
    MarksCurve(setup, strategy, candles, w + n);
    CurveLength(setup, strategy, candles, w + n);
    CurveLength(setup, strategy, candles, w + n - 1);
    CurveLength(setup, strategy, candles, w + k);
    RunsOn(setup, strategy, candles, w + n - 1, w + n);
    RunsOn(setup, strategy, candles, w + k, w + n);
    assert curve[..n] == RunTo(setup, strategy, candles, w + n - 1).value.curve;
    HiddenFall(curve, 0, k);
  }

  // ----- a gain, a calm, and a crash -----

  lemma {:induction false} WaitsLong(setup: Setup, scene: Scene, k: nat, m: nat, equity: real, solvent: bool)
    requires Playable(scene) && k <= m <= |scene.script| && setup.spotOnly
    requires forall i | k <= i < m :: Says(setup, scene.script[i], Sell)
    requires Stands(setup, scene, k, equity, None, solvent)
    ensures Stands(setup, scene, m, equity, None, solvent && equity >= 0.0)
    decreases m
  {
    hide After, Acts;
    if k < m {
      WaitsLong(setup, scene, k, m - 1, equity, solvent);
      Waits(setup, scene, m - 1, equity, solvent && equity >= 0.0);
    }
  }

  /** A purchase at 1, its sale at `y`, a calm, one more signal at `y`, and a crash. */
  ghost predicate GainScene(setup: Setup, scene: Scene, y: real, k: nat) {
    && Trades(setup) && Playable(scene) && |scene.script| == k + 4 && y >= 1.0 && setup.spotOnly
    && Says(setup, scene.script[0], Buy) && Says(setup, scene.script[k + 3], Sell)
    && (forall i | 1 <= i < k + 2 :: Says(setup, scene.script[i], Sell))
    && PriceAt(scene, 0) == 1.0 && PriceAt(scene, 1) == y == PriceAt(scene, k + 2) && PriceAt(scene, k + 3) == 0.0
    && AtrAt(setup, scene, 0) <= QuietRange(setup) * PriceAt(scene, 0)
    && AtrAt(setup, scene, k + 2) <= QuietRange(setup) * PriceAt(scene, k + 2)
  }

  lemma CalmBuy(setup: Setup, scene: Scene, y: real, k: nat)
    requires setup.maxRisk > 0.0 && Playable(scene) && |scene.script| == k + 4 && y >= 1.0
    requires scene.range == QuietRange(setup) / 2.0
    requires forall i | 0 <= i < k + 2 :: scene.prices[i] == y
    requires y - 1.0 <= scene.range * Settling(k)
    ensures AtrAt(setup, scene, k + 2) <= QuietRange(setup) * y
  {
    hide AtrNow, QuietRange;
    ProductOrder(Settling(k), Settling(k + 1), scene.range);
    hide Settling;
    CalmAgain(setup.warmup + 1, scene.prices, scene.range, y, k + 1);
    ProductOrder(1.0, y, QuietRange(setup));
  }

  lemma StageGain(setup: Setup, buy: Signal, sell: Signal, again: Signal, y: real) returns (scene: Scene, k: nat)
    requires Trades(setup) && setup.spotOnly && y >= 1.0 && Says(setup, buy, Buy) && Says(setup, sell, Sell)
    ensures GainScene(setup, scene, y, k) && PricesNonNegative(BarsOf(setup, scene))
    ensures scene.script[k + 2] == again
    ensures forall i | 0 <= i < |scene.script| :: scene.script[i] in {buy, sell, again}
  {
    hide QuietRange, AtrAt, Acts, BarsOf;
    var range := QuietRange(setup) / 2.0;
    k := EnoughCalm(y, range);
    scene := Scene([buy, sell] + seq(k, i => sell) + [again, sell], seq(k + 2, i => y) + [0.0], range);
    assert PriceAt(scene, k + 2) == scene.prices[k + 1] == y && PriceAt(scene, k + 3) == scene.prices[k + 2] == 0.0;
    CalmBuy(setup, scene, y, k);
    SceneAtr(setup, scene, 0);
    ScenePrices(setup, scene);
  }

  /** What a full position bought at 1 gains when it is sold. */
  function GainAt(setup: Setup, price: real): real {
    (price * Kept(setup) - (1.0 + Slip(setup))) * (Share(setup) * setup.start)
  }

  lemma FirstGain(setup: Setup, scene: Scene, p: Position, gain: real)
    requires Playable(scene) && |scene.script| > 1
    requires p == LongAt(setup, scene, 0, setup.start) && gain == GainAt(setup, PriceAt(scene, 1))
    ensures gain == (PriceAt(scene, 1) * Kept(setup) - p.entryPrice) * p.quantity
  {
    hide Kept, Share;
    var part := Share(setup) * setup.start;
    assert part / 1.0 == part;
  }

  lemma GainStarts(setup: Setup, scene: Scene, y: real, k: nat)
    requires GainScene(setup, scene, y, k)
    ensures Trades(setup) && Playable(scene) && |scene.script| == k + 4 && setup.start > 0.0
    ensures Says(setup, scene.script[0], Buy) && Says(setup, scene.script[1], Sell)
    ensures PriceAt(scene, 0) > 0.0 && PriceAt(scene, 1) == y && PriceAt(scene, k + 2) > 0.0
    ensures AtrAt(setup, scene, 0) <= QuietRange(setup) * PriceAt(scene, 0)
  {
    hide AtrAt, QuietRange, Acts;
  }

  /** The first sale. */
  lemma FirstSale(setup: Setup, scene: Scene, y: real, k: nat, first: real)
    requires GainScene(setup, scene, y, k) && first == setup.start + GainAt(setup, y)
    ensures Stands(setup, scene, 2, first, None, first >= 0.0)
  {
    hide *;
    GainStarts(setup, scene, y, k);
    var p, gain := LongAt(setup, scene, 0, setup.start), GainAt(setup, y);
    Starts(setup, scene);
    BuysAll(setup, scene, 0, setup.start, true);
    FirstGain(setup, scene, p, gain);
    SellsAll(setup, scene, 1, setup.start, p, true, first);
  }

  /** The second purchase and the crash, when the first sale left something. */
  lemma SecondBuy(setup: Setup, scene: Scene, y: real, k: nat, first: real, after: real)
    requires GainScene(setup, scene, y, k) && Says(setup, scene.script[k + 2], Buy)
    requires first > 0.0 && after == first * (1.0 - Stake(setup))
    requires Stands(setup, scene, 2, first, None, true)
    ensures Stands(setup, scene, k + 3, first, Some(LongAt(setup, scene, k + 2, first)), true)
    ensures Stands(setup, scene, k + 4, after, None, false)
  {
    hide After, AtrAt, QuietRange, Says, PriceAt, Stake, Trades;
    WaitsLong(setup, scene, 2, k + 2, first, true);
    BuysAndCrashes(setup, scene, k + 2, first, true, after);
  }

  /** And when it left nothing. */
  lemma NoSecondBuy(setup: Setup, scene: Scene, y: real, k: nat, first: real)
    requires GainScene(setup, scene, y, k) && Says(setup, scene.script[k + 2], Buy) && first <= 0.0
    requires Stands(setup, scene, 2, first, None, first >= 0.0)
    ensures Stands(setup, scene, k + 4, first, None, false)
  {
    hide After, AtrAt, QuietRange, Acts, PriceAt, SizeFor;
    WaitsLong(setup, scene, 2, k + 2, first, first >= 0.0);
    SceneAtr(setup, scene, k + 2);
    var price, atr, g := PriceAt(scene, k + 2), AtrAt(setup, scene, k + 2), scene.script[k + 2];
    QuietStop(setup, Buy, price, atr);
    NoSize(setup, first, Buy, price, atr, g.confidence);
    Waits(setup, scene, k + 2, first, false);
    Waits(setup, scene, k + 3, first, false);
  }

  /** A price at which a full sale doubles the equity. */
  lemma DoublingPrice(setup: Setup) returns (y: real)
    requires Trades(setup) && Slip(setup) < 1.0 && setup.feeRate < 1.0
    ensures y >= 1.0 && GainAt(setup, y) == setup.start
  {
    var s, kept, m, e := Slip(setup), Kept(setup), Share(setup), setup.start;
    ProductSign(1.0 - s, 1.0 - setup.feeRate);
    FractionAtMost(1.0 - s, 1.0 - setup.feeRate, kept);
    hide Kept, Share, Slip;
    QuotientSign(1.0, m);
    var total := 1.0 + s + 1.0 / m;
    y := total / kept;
    QuotientTimes(total, kept);
    QuotientOrder(total, kept, 1.0);
    assert 1.0 / m * (m * e) == 1.0 / m * m * e;
  }

  /** For every spot stake above the equity, a run in which the drawdown misses the deepest fall. */
  lemma StakeHidesFall(setup: Setup) returns (strategy: Strategy, candles: seq<Candle>)
    requires Trades(setup) && setup.spotOnly && Stake(setup) > 1.0 && Slip(setup) < 1.0 && setup.feeRate < 1.0
    ensures PricesNonNegative(candles)
    ensures var r := RunTo(setup, strategy, candles, |candles|);
      r.Some? && !DeepestFall(r.value.curve, r.value.maxDrawdown)
  {
    hide *;
    StrongSays(setup, Buy);
    StrongSays(setup, Sell);
    var y := DoublingPrice(setup);
    var scene, k := StageGain(setup, Strong(setup, Buy), Strong(setup, Sell), Strong(setup, Buy), y);
    strategy, candles := ScriptOf(setup, scene), BarsOf(setup, scene);
    GainStarts(setup, scene, y, k);
    GainHides(setup, scene, y, k);
  }

  lemma GainHides(setup: Setup, scene: Scene, y: real, k: nat)
    requires GainScene(setup, scene, y, k) && Says(setup, scene.script[k + 2], Buy)
    requires Stake(setup) > 1.0 && GainAt(setup, y) == setup.start
    ensures var r := RunTo(setup, ScriptOf(setup, scene), BarsOf(setup, scene), |BarsOf(setup, scene)|);
      r.Some? && !DeepestFall(r.value.curve, r.value.maxDrawdown)
  {
    hide *;
    GainStarts(setup, scene, y, k);
    var first := setup.start + setup.start;
    var after := first * (1.0 - Stake(setup));
    FirstSale(setup, scene, y, k, first);
    Debt(first, Stake(setup), after);
    SecondBuy(setup, scene, y, k, first, after);
    EndsHidden(setup, scene, 2, first, Some(LongAt(setup, scene, k + 2, first)), first, None, after);
  }

  /** With the engine's own costs and thresholds, and a configuration that risks everything on every trade. */
  lemma DefaultCostsHideFall() returns (strategy: Strategy, candles: seq<Candle>)
    ensures var setup := Setup(10000.0, 1.0, 1.0, 0.001, 5.0, true, 60, 0.7, 0.003);
      var r := RunTo(setup, strategy, candles, |candles|);
      && PricesNonNegative(candles)
      && r.Some? && !DeepestFall(r.value.curve, r.value.maxDrawdown)
  {
    var setup := Setup(10000.0, 1.0, 1.0, 0.001, 5.0, true, 60, 0.7, 0.003);
    assert Stake(setup) == 1.0005;
    hide RunTo, DeepestFall, PricesNonNegative;
    strategy, candles := StakeHidesFall(setup);
  }

  // ----- two shorts -----

  function ShortAt(setup: Setup, scene: Scene, k: nat, quantity: real): (p: Position)
    requires Playable(scene) && k < |scene.script|
    ensures p.side.Sell?
  {
    Entry(setup, scene, k, Sell, quantity)
  }

  /** A sell signal with nothing held opens a short. */
  lemma OpensShort(setup: Setup, scene: Scene, k: nat, equity: real, solvent: bool, quantity: real)
    requires Trades(setup) && !setup.spotOnly && Playable(scene) && k < |scene.script|
    requires Says(setup, scene.script[k], Sell)
    requires Stands(setup, scene, k, equity, None, solvent) && equity > 0.0
    requires SizeAt(setup, scene, k, equity).Sized? && SizeAt(setup, scene, k, equity).quantity == quantity > 0.0
    ensures Stands(setup, scene, k + 1, equity, Some(ShortAt(setup, scene, k, quantity)), solvent)
  {
    hide SizeAt, After, Acts;
    Enters(setup, scene, k, equity, solvent, quantity);
  }

  /** A buy signal closes it at the price of its candle. */
  lemma ClosesShort(setup: Setup, scene: Scene, k: nat, equity: real, p: Position, solvent: bool, after: real)
    requires Playable(scene) && k < |scene.script| && Says(setup, scene.script[k], Buy) && p.side.Sell?
    requires Stands(setup, scene, k, equity, Some(p), solvent)
    requires after == equity + (p.entryPrice - PriceAt(scene, k) * Paid(setup)) * p.quantity
    ensures Stands(setup, scene, k + 1, after, None, solvent && after >= 0.0)
  {
    hide Paid, Profit, FillPrice, After, Acts;
    ShortBrings(setup, p, PriceAt(scene, k));
    Exits(setup, scene, k, equity, p, solvent, after);
  }

  lemma ShortStop(price: real, atr: real)
    requires price > 0.0 && atr > 0.0
    ensures ValidPrices(price, StopOf(Sell, price, atr))
  {
  }

  /** From here on a short of this quantity costs more than there is. */
  function RuinFrom(price: real, rest: real, quantity: real): real
    requires quantity > 0.0
  {
    price + rest / quantity + 1.0
  }

  /** A short at 1, bought back at `x`, a second one at `x`, bought back at a price that ruins one with `rest` left. */
  ghost predicate ShortScene(setup: Setup, scene: Scene, x: real, rest: real) {
    && Trades(setup) && Playable(scene) && |scene.script| == 4 && x > 0.0 && !setup.spotOnly
    && Says(setup, scene.script[0], Sell) && Says(setup, scene.script[1], Buy)
    && Says(setup, scene.script[2], Sell) && Says(setup, scene.script[3], Buy)
    && PriceAt(scene, 0) == 1.0 && PriceAt(scene, 1) == x == PriceAt(scene, 2)
    && AtrAt(setup, scene, 0) <= QuietRange(setup) * PriceAt(scene, 0)
    && SizeAt(setup, scene, 2, rest).Sized? && SizeAt(setup, scene, 2, rest).quantity > 0.0
    && PriceAt(scene, 3) >= RuinFrom(x, rest, SizeAt(setup, scene, 2, rest).quantity)
    && ValidPrices(PriceAt(scene, 3), StopOf(Buy, PriceAt(scene, 3), AtrAt(setup, scene, 3)))
  }

  /** The third window does not depend on the price that comes after it; the fourth adds one bar. */
  lemma LaterPriceUnseen(w: nat, x: real, z: real, range: real)
    ensures PricedAfter(w + 1, [x, x, z], range)[..w + 3] == PricedAfter(w + 1, [x, x], range)
    ensures PricedAfter(w + 1, [x, x, z], range)[..w + 4] == PricedAfter(w + 1, [x, x], range) + [BarAt(z, range)]
  {
  }

  /** A jump that is large against all before it leaves room for a stop below the price. */
  lemma StopAfterJump(w: nat, x: real, z: real, range: real)
    requires x > 0.0 && range > 0.0 && z >= x
    requires z > range + 2.0 * AtrNow(PricedAfter(w + 1, [x, x], range))
    ensures AtrNow(PricedAfter(w + 1, [x, x], range)) > 0.0
    ensures var atr := AtrNow(PricedAfter(w + 1, [x, x, z], range)[..w + 4]);
      atr > 0.0 && ValidPrices(z, StopOf(Buy, z, atr))
  {
    hide AtrNow;
    var window := PricedAfter(w + 1, [x, x], range);
    LaterPriceUnseen(w, x, z, range);
    AtrAtLeast(w + 1, [x, x], range, w + 3);
    assert window[..w + 3] == window;
    AtrStep(window, z, range);
  }

  /** The size of the second short, and then a price that ruins it. */
  lemma RuinousPrice(setup: Setup, x: real, rest: real, range: real, confidence: real) returns (z: real)
    requires Trades(setup) && x > 0.0 && rest > 0.0 && range > 0.0
    ensures var w := setup.warmup;
      var size := SizeFor(setup, rest, Sell, x, AtrNow(PricedAfter(w + 1, [x, x], range)), confidence);
      && size.Sized? && size.quantity > 0.0 && z >= RuinFrom(x, rest, size.quantity) && z > 0.0
      && ValidPrices(z, StopOf(Buy, z, AtrNow(PricedAfter(w + 1, [x, x, z], range)[..w + 4])))
  {
    hide AtrNow, SizeFor, StopOf, Trades, PricedAfter;
    var w := setup.warmup;
    var window := PricedAfter(w + 1, [x, x], range);
    AtrAtLeast(w + 1, [x, x], range, w + 3);
    assert window[..w + 3] == window;
    ShortStop(x, AtrNow(window));
    SomeSize(setup, rest, Sell, x, AtrNow(window), confidence);
    var quantity := SizeFor(setup, rest, Sell, x, AtrNow(window), confidence).quantity;
    QuotientSign(rest, quantity);
    z := x + rest / quantity + 1.0 + range + 2.0 * AtrNow(window);
    StopAfterJump(w, x, z, range);
  }

  lemma ShortWindows(setup: Setup, scene: Scene, x: real, z: real)
    requires Playable(scene) && |scene.script| == 4 && scene.prices == [x, x, z]
    ensures PriceAt(scene, 0) == 1.0 && PriceAt(scene, 1) == x == PriceAt(scene, 2) && PriceAt(scene, 3) == z
    ensures AtrAt(setup, scene, 2) == AtrNow(PricedAfter(setup.warmup + 1, [x, x], scene.range))
    ensures AtrAt(setup, scene, 3)
         == AtrNow(PricedAfter(setup.warmup + 1, [x, x, z], scene.range)[..setup.warmup + 4])
  {
    hide AtrNow, PricedAfter;
    LaterPriceUnseen(setup.warmup, x, z, scene.range);
  }

  lemma ShortSize(setup: Setup, scene: Scene, x: real, rest: real)
    requires Playable(scene) && |scene.script| == 4 && PriceAt(scene, 2) == x && Says(setup, scene.script[2], Sell)
    ensures scene.script[2].Scored?
    ensures SizeAt(setup, scene, 2, rest)
         == SizeFor(setup, rest, Sell, x, AtrAt(setup, scene, 2), scene.script[2].confidence)
  {
    hide SizeFor, AtrAt, Acts;
  }

  lemma QuietOpening(setup: Setup, scene: Scene)
    requires setup.maxRisk > 0.0 && Playable(scene) && scene.range == QuietRange(setup)
    ensures AtrAt(setup, scene, 0) <= QuietRange(setup) * PriceAt(scene, 0)
  {
    hide AtrAt, QuietRange;
    SceneAtr(setup, scene, 0);
  }

  function ShortPlan(setup: Setup, buy: Signal, sell: Signal, x: real, z: real): (scene: Scene)
    requires setup.maxRisk > 0.0
    ensures Playable(scene) && scene.range == QuietRange(setup) && scene.script == [sell, buy, sell, buy]
    ensures forall i | 0 <= i < |scene.script| :: scene.script[i] in {buy, sell}
    ensures scene.prices == [x, x, z]
  {
    Scene([sell, buy, sell, buy], [x, x, z], QuietRange(setup))
  }

  lemma IsShortScene(setup: Setup, buy: Signal, sell: Signal, scene: Scene, x: real, rest: real, z: real, size: Sizing)
    requires Trades(setup) && !setup.spotOnly && Playable(scene) && x > 0.0
    requires |scene.script| == 4 && scene.script == [sell, buy, sell, buy]
    requires Says(setup, buy, Buy) && Says(setup, sell, Sell)
    requires PriceAt(scene, 0) == 1.0 && PriceAt(scene, 1) == x == PriceAt(scene, 2) && PriceAt(scene, 3) == z
    requires AtrAt(setup, scene, 0) <= QuietRange(setup) * PriceAt(scene, 0)
    requires size == SizeAt(setup, scene, 2, rest) && size.Sized? && size.quantity > 0.0
    requires z >= RuinFrom(x, rest, size.quantity) && ValidPrices(z, StopOf(Buy, z, AtrAt(setup, scene, 3)))
    ensures ShortScene(setup, scene, x, rest)
  {
    hide QuietRange, AtrAt, PriceAt, SizeAt, StopOf, ValidPrices, Acts, Says, Trades, Playable, RuinFrom;
  }

  lemma StageShort(setup: Setup, buy: Signal, sell: Signal, x: real, rest: real) returns (scene: Scene)
    requires Trades(setup) && !setup.spotOnly && x > 0.0 && rest > 0.0
    requires Says(setup, buy, Buy) && Says(setup, sell, Sell)
    ensures ShortScene(setup, scene, x, rest) && PricesNonNegative(BarsOf(setup, scene))
    ensures Playable(scene) && |scene.script| == 4
    ensures forall i | 0 <= i < |scene.script| :: scene.script[i] in {buy, sell}
  {
    assert setup.maxRisk > 0.0 && sell.Scored?;
    hide *;
    var z := RuinousPrice(setup, x, rest, QuietRange(setup), sell.confidence);
    scene := ShortPlan(setup, buy, sell, x, z);
    ShortWindows(setup, scene, x, z);
    ShortSize(setup, scene, x, rest);
    QuietOpening(setup, scene);
    ScenePrices(setup, scene);
    IsShortScene(setup, buy, sell, scene, x, rest, z, SizeAt(setup, scene, 2, rest));
  }

  /** What a full short at 1 gains when it is bought back. */
  function ShortGainAt(setup: Setup, price: real): real {
    (1.0 - Slip(setup) - price * Paid(setup)) * (Share(setup) * setup.start)
  }

  lemma FirstShortGain(setup: Setup, scene: Scene, p: Position, gain: real)
    requires Playable(scene) && |scene.script| > 1 && PriceAt(scene, 0) == 1.0
    requires p == ShortAt(setup, scene, 0, Share(setup) * setup.start / PriceAt(scene, 0))
    requires gain == ShortGainAt(setup, PriceAt(scene, 1))
    ensures gain == (p.entryPrice - PriceAt(scene, 1) * Paid(setup)) * p.quantity
  {
    hide Paid, Share;
    var part := Share(setup) * setup.start;
    assert part / 1.0 == part;
  }

  lemma ShortFacts(setup: Setup, scene: Scene, x: real, rest: real)
    requires ShortScene(setup, scene, x, rest)
    ensures Trades(setup) && Sane(setup) && setup.start > 0.0 && !setup.spotOnly
    ensures Playable(scene) && |scene.script| == 4
    ensures Says(setup, scene.script[0], Sell) && Says(setup, scene.script[1], Buy)
    ensures Says(setup, scene.script[2], Sell) && Says(setup, scene.script[3], Buy)
    ensures PriceAt(scene, 0) == 1.0 && PriceAt(scene, 1) == x == PriceAt(scene, 2) && x > 0.0
    ensures AtrAt(setup, scene, 0) <= QuietRange(setup) * PriceAt(scene, 0)
    ensures scene.script[0].Scored? && scene.script[2].Scored?
    ensures var size := SizeAt(setup, scene, 2, rest);
      && size.Sized? && size.quantity > 0.0
      && PriceAt(scene, 3) >= RuinFrom(x, rest, size.quantity)
  {
    hide AtrAt, QuietRange, Acts, SizeAt, RuinFrom;
  }

  /** The first short. */
  lemma FirstShort(setup: Setup, scene: Scene, x: real, rest: real, first: real)
    requires ShortScene(setup, scene, x, rest) && first == setup.start + ShortGainAt(setup, x)
    ensures Stands(setup, scene, 2, first, None, first >= 0.0)
  {
    hide *;
    ShortFacts(setup, scene, x, rest);
    FullSizeAt(setup, scene, 0, setup.start);
    var quantity, gain := Share(setup) * setup.start / PriceAt(scene, 0), ShortGainAt(setup, x);
    var p := ShortAt(setup, scene, 0, quantity);
    Starts(setup, scene);
    OpensShort(setup, scene, 0, setup.start, true, quantity);
    FirstShortGain(setup, scene, p, gain);
    ClosesShort(setup, scene, 1, setup.start, p, true, first);
  }

  /** A short bought back far enough above its price loses more than there is. */
  lemma RuinousBuyback(setup: Setup, entry: real, price: real, z: real, quantity: real, rest: real)
    requires Sane(setup) && entry <= price && price > 0.0 && quantity > 0.0 && rest > 0.0
    requires z >= RuinFrom(price, rest, quantity)
    ensures rest + (entry - z * Paid(setup)) * quantity < 0.0
  {
    var s, f := Slip(setup), setup.feeRate;
    ProductNonNegative(s, f);
    assert Paid(setup) == 1.0 + s + f + s * f;
    QuotientSign(rest, quantity);
    hide Paid;
    ProductOrder(1.0, Paid(setup), z);
    var q := rest / quantity;
    ProductOrder(entry - z * Paid(setup), -q - 1.0, quantity);
    assert (-q - 1.0) * quantity == -rest - quantity;
  }

  lemma SlippedBelow(setup: Setup, scene: Scene, k: nat, quantity: real)
    requires Sane(setup) && Playable(scene) && k < |scene.script| && PriceAt(scene, k) > 0.0
    ensures var p := ShortAt(setup, scene, k, quantity);
      p.entryPrice <= PriceAt(scene, k) && p.quantity == quantity
  {
    ProductNonNegative(PriceAt(scene, k), Slip(setup));
  }

  /** The second short, from the equity it was meant to ruin. */
  lemma SecondShort(setup: Setup, scene: Scene, x: real, rest: real) returns (p: Position, after: real)
    requires ShortScene(setup, scene, x, rest) && rest > 0.0
    requires Stands(setup, scene, 2, rest, None, true)
    ensures after < 0.0
    ensures Stands(setup, scene, 3, rest, Some(p), true) && Stands(setup, scene, 4, after, None, false)
  {
    hide *;
    ShortFacts(setup, scene, x, rest);
    var quantity := SizeAt(setup, scene, 2, rest).quantity;
    p := ShortAt(setup, scene, 2, quantity);
    after := rest + (p.entryPrice - PriceAt(scene, 3) * Paid(setup)) * p.quantity;
    OpensShort(setup, scene, 2, rest, true, quantity);
    SlippedBelow(setup, scene, 2, quantity);
    RuinousBuyback(setup, p.entryPrice, x, PriceAt(scene, 3), p.quantity, rest);
    ClosesShort(setup, scene, 3, rest, p, true, after);
  }

  /** A price at which a full short loses the given part of the equity. */
  lemma LosingPrice(setup: Setup, part: real) returns (x: real)
    requires Trades(setup) && part > 0.0
    ensures x > 0.0 && ShortGainAt(setup, x) == -(part * setup.start)
  {
    var s, paid, m, e := Slip(setup), Paid(setup), Share(setup), setup.start;
    ProductSign(1.0 + s, 1.0 + setup.feeRate);
    QuotientSign(part, m);
    var total := 1.0 - s + part / m;
    x := total / paid;
    QuotientSign(total, paid);
    hide Paid, Share, Slip;
    assert 1.0 - s - x * paid == -(part / m);
    assert -(part / m) * (m * e) == -(part / m * m * e);
  }

  /** With shorts allowed, a run that goes below zero and whose drawdown misses the deepest fall. */
  lemma ShortsHideFall(setup: Setup) returns (strategy: Strategy, candles: seq<Candle>)
    requires Trades(setup) && !setup.spotOnly
    ensures PricesNonNegative(candles)
    ensures var r := RunTo(setup, strategy, candles, |candles|);
      r.Some? && r.value.equity < 0.0 && !DeepestFall(r.value.curve, r.value.maxDrawdown)
  {
    hide *;
    StrongSays(setup, Buy);
    StrongSays(setup, Sell);
    var rest := 0.5 * setup.start;
    var x := LosingPrice(setup, 0.5);
    var scene := StageShort(setup, Strong(setup, Buy), Strong(setup, Sell), x, rest);
    strategy, candles := ScriptOf(setup, scene), BarsOf(setup, scene);
    ShortFacts(setup, scene, x, rest);
    FirstShort(setup, scene, x, rest, rest);
    var p, after := SecondShort(setup, scene, x, rest);
    EndsHidden(setup, scene, 2, rest, Some(p), rest, None, after);
  }

  // ----- exactly which settings -----

  lemma EndsBelow(setup: Setup, strategy: Strategy, candles: seq<Candle>)
    requires var r := RunTo(setup, strategy, candles, |candles|); r.Some? && r.value.equity < 0.0
    ensures !NeverNegative(RunTo(setup, strategy, candles, |candles|).value.curve)
  {
    hide RunTo;
    CurveLength(setup, strategy, candles, |candles|);
  }

  /**
   * Of all settings under which trades are possible, the ones under which no run on non-negative prices ever goes
   * below zero are exactly the spot settings whose stake is at most the equity.
   */
  lemma NeverNegativeExactly(setup: Setup)
    requires Trades(setup)
    ensures (forall strategy: Strategy, candles: seq<Candle> |
               PricesNonNegative(candles) && RunTo(setup, strategy, candles, |candles|).Some? ::
               NeverNegative(RunTo(setup, strategy, candles, |candles|).value.curve))
            <==> (setup.spotOnly && Stake(setup) <= 1.0)
  {
    hide RunTo, Stake, NeverNegative, PricesNonNegative;
    if setup.spotOnly && Stake(setup) <= 1.0 {
      forall strategy: Strategy, candles: seq<Candle> |
          PricesNonNegative(candles) && RunTo(setup, strategy, candles, |candles|).Some?
        ensures NeverNegative(RunTo(setup, strategy, candles, |candles|).value.curve)
      {
        StaysFunded(setup, strategy, candles, |candles|);
      }
    } else if setup.spotOnly {
      var strategy, candles := StakeRuins(setup);
      EndsBelow(setup, strategy, candles);
    } else {
      var strategy, candles := ShortsHideFall(setup);
      EndsBelow(setup, strategy, candles);
    }
  }

  /**
   * And they are exactly the settings under which every run reports the deepest fall of its curve as its drawdown,
   * unless a sale brings nothing, because all of it goes to the fee or the slippage.
   */
  lemma DrawdownRightExactly(setup: Setup)
    requires Trades(setup) && (setup.spotOnly ==> setup.feeRate < 1.0 && Slip(setup) < 1.0)
    ensures (forall strategy: Strategy, candles: seq<Candle> |
               PricesNonNegative(candles) && RunTo(setup, strategy, candles, |candles|).Some? ::
               DeepestFall(RunTo(setup, strategy, candles, |candles|).value.curve,
                           RunTo(setup, strategy, candles, |candles|).value.maxDrawdown))
            <==> (setup.spotOnly && Stake(setup) <= 1.0)
  {
    hide RunTo, Stake, Slip, NeverNegative, PricesNonNegative, DeepestFall;
    if setup.spotOnly && Stake(setup) <= 1.0 {
      forall strategy: Strategy, candles: seq<Candle> |
          PricesNonNegative(candles) && RunTo(setup, strategy, candles, |candles|).Some?
        ensures DeepestFall(RunTo(setup, strategy, candles, |candles|).value.curve,
                            RunTo(setup, strategy, candles, |candles|).value.maxDrawdown)
      {
        SpotEquityNeverNegative(setup, strategy, candles);
      }
    } else if setup.spotOnly {
      var strategy, candles := StakeHidesFall(setup);
    } else {
      var strategy, candles := ShortsHideFall(setup);
    }
  }
}
