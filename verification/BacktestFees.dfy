/**
 * What a higher fee does to the result of a run: exactly when a run at the lower fee never ends poorer. The fee costs
 * money at every exit, and it keeps signals from becoming trades.
 */
module BacktestFees {
  import opened Common
  import opened PositionSizing
  import opened Backtest
  import opened BacktestRisk
  import opened BacktestRuin

  /** Two fees under which trades are possible and a sale brings something. */
  predicate FeePair(cheap: Setup, dear: Setup) {
    && Trades(cheap) && Trades(dear) && OnlyFeesDiffer(cheap, dear)
    && cheap.feeRate < dear.feeRate < 1.0 && Slip(cheap) < 1.0
  }

  /** The dear run ends richer, although both have closed a trade. */
  ghost predicate DearEndsRicher(cheap: Setup, dear: Setup, strategy: Strategy, candles: seq<Candle>) {
    var x, y := RunTo(cheap, strategy, candles, |candles|), RunTo(dear, strategy, candles, |candles|);
    && PricesNonNegative(candles) && x.Some? && y.Some?
    && x.value.trades != [] && y.value.trades != []
    && x.value.equity < y.value.equity
  }

  lemma Traded(setup: Setup, strategy: Strategy, candles: seq<Candle>)
    requires RunTo(setup, strategy, candles, |candles|).Some?
    requires RunTo(setup, strategy, candles, |candles|).value.equity != setup.start
    ensures RunTo(setup, strategy, candles, |candles|).value.trades != []
  {
    hide RunTo;
    EquityIsRealised(setup, strategy, candles, |candles|);
  }

  lemma EndsRicher(cheap: Setup, dear: Setup, scene: Scene, x: real, y: real)
    requires OnlyFeesDiffer(cheap, dear) && Playable(scene) && PricesNonNegative(BarsOf(cheap, scene))
    requires Stands(cheap, scene, |scene.script|, x, None, false)
    requires Stands(dear, scene, |scene.script|, y, None, false)
    requires x < y && x != cheap.start && y != cheap.start
    ensures DearEndsRicher(cheap, dear, ScriptOf(cheap, scene), BarsOf(cheap, scene))
  {
    hide RunTo, PricesNonNegative;
    EndIs(cheap, scene);
    EndIs(dear, scene);
    StandsIs(cheap, scene, |scene.script|, x, None, false);
    StandsIs(dear, scene, |scene.script|, y, None, false);
    assert ScriptOf(cheap, scene) == ScriptOf(dear, scene) by { SameScript(cheap, dear, scene); }
    Traded(cheap, ScriptOf(cheap, scene), BarsOf(cheap, scene));
    Traded(dear, ScriptOf(cheap, scene), BarsOf(cheap, scene));
  }

  lemma SameScript(cheap: Setup, dear: Setup, scene: Scene)
    requires cheap.warmup == dear.warmup
    ensures ScriptOf(cheap, scene) == ScriptOf(dear, scene)
  {
  }

  // ----- what the two fees have in common -----

  lemma SameSettings(cheap: Setup, dear: Setup)
    requires OnlyFeesDiffer(cheap, dear) && cheap.maxRisk > 0.0
    ensures Share(cheap) == Share(dear) && Slip(cheap) == Slip(dear) && Stake(cheap) == Stake(dear)
    ensures QuietRange(cheap) == QuietRange(dear) && cheap.start == dear.start && cheap.spotOnly == dear.spotOnly
  {
  }

  lemma SameAtr(cheap: Setup, dear: Setup, scene: Scene, k: nat)
    requires OnlyFeesDiffer(cheap, dear) && Playable(scene) && k < |scene.script|
    ensures AtrAt(cheap, scene, k) == AtrAt(dear, scene, k)
  {
    hide AtrNow;
  }

  lemma SameSize(cheap: Setup, dear: Setup, scene: Scene, k: nat, equity: real)
    requires OnlyFeesDiffer(cheap, dear) && Playable(scene) && k < |scene.script| && scene.script[k].Scored?
    ensures SizeAt(cheap, scene, k, equity) == SizeAt(dear, scene, k, equity)
  {
    hide AtrAt;
    SameAtr(cheap, dear, scene, k);
  }

  lemma SaysCheaper(cheap: Setup, dear: Setup, g: Signal, side: Side)
    requires OnlyFeesDiffer(cheap, dear) && Says(dear, g, side)
    ensures Says(cheap, g, side)
  {
    hide Acts, Between;
    DecisionsAgree(cheap, dear, g);
  }

  lemma CheaperGainScene(cheap: Setup, dear: Setup, scene: Scene, y: real, k: nat)
    requires FeePair(cheap, dear) && GainScene(dear, scene, y, k)
    ensures GainScene(cheap, scene, y, k)
  {
    hide AtrAt, QuietRange, Says, PriceAt;
    SameSettings(cheap, dear);
    SameAtr(cheap, dear, scene, 0);
    SameAtr(cheap, dear, scene, k + 2);
    SaysCheaper(cheap, dear, scene.script[0], Buy);
    SaysCheaper(cheap, dear, scene.script[k + 3], Sell);
    forall i | 1 <= i < k + 2
      ensures Says(cheap, scene.script[i], Sell)
    {
      SaysCheaper(cheap, dear, scene.script[i], Sell);
    }
  }

  // ----- a stake above the equity -----

  lemma SaleOrder(y: real, low: real, high: real, c: real, part: real, less: real, more: real, cost: real)
    requires y > 0.0 && 0.0 < low < high && part > 0.0
    requires less == (y * low - c) * part && more == (y * high - c) * part && cost == c * part
    ensures -cost < less < more
  {
    ProductSign(low, y);
    ProductOrder(high, low, y);
    ProductOrder(y * low - c, -c, part);
    ProductOrder(y * high - c, y * low - c, part);
  }

  /** The same sale brings less at the higher fee, but never less than nothing. */
  lemma DearerSale(cheap: Setup, dear: Setup, y: real, e: real, stake: real)
    requires FeePair(cheap, dear) && y > 0.0 && e == cheap.start && stake == Stake(cheap)
    ensures -(stake * e) < GainAt(dear, y) < GainAt(cheap, y)
  {
    var s, part := Slip(cheap), Share(cheap) * cheap.start;
    ProductSign(cheap.start, Share(cheap));
    ProductSign(1.0 - s, 1.0 - dear.feeRate);
    var low, high := Kept(dear), Kept(cheap);
    KeptOrder(s, cheap.feeRate, dear.feeRate, high, low);
    SameSettings(cheap, dear);
    assert stake * e == (1.0 + s) * part;
    hide Kept, Slip, Share, Stake;
    SaleOrder(y, low, high, 1.0 + s, part, GainAt(dear, y), GainAt(cheap, y), stake * e);
  }

  lemma DebtGrows(stake: real, less: real, more: real, x: real, y: real)
    requires stake > 1.0 && less < more && x == more * (1.0 - stake) && y == less * (1.0 - stake)
    ensures x < y
  {
    ProductOrder(more, less, stake - 1.0);
    assert x == -(more * (stake - 1.0)) && y == -(less * (stake - 1.0));
  }

  /** How the dear run ends: after a sale that left something it buys again, and otherwise it stays out. */
  lemma DearStakeRun(dear: Setup, scene: Scene, y: real, k: nat, left: real, stake: real) returns (end: real)
    requires GainScene(dear, scene, y, k) && Says(dear, scene.script[k + 2], Buy)
    requires left == dear.start + GainAt(dear, y) && stake == Stake(dear)
    ensures Stands(dear, scene, k + 4, end, None, false)
    ensures if left > 0.0 then end == left * (1.0 - stake) else end == left
  {
    hide *;
    FirstSale(dear, scene, y, k, left);
    if left > 0.0 {
      end := left * (1.0 - stake);
      SecondBuy(dear, scene, y, k, left, end);
    } else {
      end := left;
      NoSecondBuy(dear, scene, y, k, left);
    }
  }

  lemma StakeRunsEnd(cheap: Setup, dear: Setup, scene: Scene, y: real, k: nat, e: real, stake: real)
    returns (x: real, z: real)
    requires FeePair(cheap, dear) && y > 0.0 && GainAt(cheap, y) == e == cheap.start == dear.start
    requires Stake(cheap) == stake == Stake(dear) && e > 0.0 && stake > 1.0
    requires GainScene(dear, scene, y, k) && GainScene(cheap, scene, y, k)
    requires Says(dear, scene.script[k + 2], Buy) && Says(cheap, scene.script[k + 2], Buy)
    ensures Stands(cheap, scene, k + 4, x, None, false) && Stands(dear, scene, k + 4, z, None, false)
    ensures x < z && x != e && z != e
  {
    hide *;
    x := (e + e) * (1.0 - stake);
    FirstSale(cheap, scene, y, k, e + e);
    SecondBuy(cheap, scene, y, k, e + e, x);
    var left := e + GainAt(dear, y);
    z := DearStakeRun(dear, scene, y, k, left, stake);
    DearerSale(cheap, dear, y, e, stake);
    StakeOrder(e, stake, left, x, z);
  }

  /** A stake above the equity: both sell once, and the cheap run has more to lose, and owes more in the end. */
  lemma StakeRun(cheap: Setup, dear: Setup, buy: Signal, sell: Signal, signals: iset<Signal>)
    returns (strategy: Strategy, candles: seq<Candle>)
    requires FeePair(cheap, dear) && cheap.spotOnly && Stake(cheap) > 1.0
    requires buy in signals && sell in signals && Says(dear, buy, Buy) && Says(dear, sell, Sell)
    ensures Draws(strategy, signals) && DearEndsRicher(cheap, dear, strategy, candles)
  {
    FeeFacts(cheap, dear);
    hide *;
    SameSettings(cheap, dear);
    var y := DoublingPrice(cheap);
    var scene, k := StageGain(dear, buy, sell, buy, y);
    GainStarts(dear, scene, y, k);
    CheaperGainScene(cheap, dear, scene, y, k);
    SaysCheaper(cheap, dear, buy, Buy);
    var x, z := StakeRunsEnd(cheap, dear, scene, y, k, cheap.start, Stake(cheap));
    strategy, candles := ScriptOf(cheap, scene), BarsOf(cheap, scene);
    SameBars(cheap, dear, scene);
    EndsRicher(cheap, dear, scene, x, z);
    SceneDraws(cheap, scene, signals);
  }

  lemma SameBars(cheap: Setup, dear: Setup, scene: Scene)
    requires OnlyFeesDiffer(cheap, dear)
    ensures BarsOf(cheap, scene) == BarsOf(dear, scene)
  {
  }

  lemma FeeFacts(cheap: Setup, dear: Setup)
    requires FeePair(cheap, dear)
    ensures Trades(cheap) && Trades(dear) && OnlyFeesDiffer(cheap, dear) && cheap.maxRisk > 0.0 && cheap.start > 0.0
    ensures cheap.feeRate < 1.0 && Slip(cheap) < 1.0
  {
  }

  lemma StakeOrder(e: real, stake: real, left: real, end: real, rest: real)
    requires e > 0.0 && stake > 1.0 && -(stake * e) < left - e < e && end == (e + e) * (1.0 - stake)
    requires if left > 0.0 then rest == left * (1.0 - stake) else rest == left
    ensures end < rest && end < 0.0 && rest != e
  {
    DebtGrows(stake, e, e + e, end, e * (1.0 - stake));
    Debt(e + e, stake, end);
    if left > 0.0 {
      DebtGrows(stake, left, e + e, end, rest);
      Debt(left, stake, rest);
    } else {
      assert e * (1.0 - stake) == e - stake * e;
    }
  }

  // ----- shorts -----

  lemma CheaperShortScene(cheap: Setup, dear: Setup, scene: Scene, x: real, rest: real)
    requires FeePair(cheap, dear) && ShortScene(dear, scene, x, rest)
    ensures ShortScene(cheap, scene, x, rest)
  {
    hide AtrAt, QuietRange, Says, PriceAt, SizeAt, RuinFrom;
    SameSettings(cheap, dear);
    SameAtr(cheap, dear, scene, 0);
    SameAtr(cheap, dear, scene, 3);
    SaysCheaper(cheap, dear, scene.script[0], Sell);
    SaysCheaper(cheap, dear, scene.script[1], Buy);
    SaysCheaper(cheap, dear, scene.script[2], Sell);
    SaysCheaper(cheap, dear, scene.script[3], Buy);
    ShortFacts(dear, scene, x, rest);
    SameSize(cheap, dear, scene, 2, rest);
  }

  /** Buying back costs more at the higher fee. */
  lemma DearerBuyback(cheap: Setup, dear: Setup, x: real)
    requires FeePair(cheap, dear) && x > 0.0
    ensures ShortGainAt(dear, x) < ShortGainAt(cheap, x)
  {
    var s, part := Slip(cheap), Share(cheap) * cheap.start;
    ProductSign(cheap.start, Share(cheap));
    ProductOrder(1.0 + dear.feeRate, 1.0 + cheap.feeRate, 1.0 + s);
    var low, high := Paid(cheap), Paid(dear);
    assert low < high;
    SameSettings(cheap, dear);
    assert ShortGainAt(dear, x) == (1.0 - s - x * high) * part && ShortGainAt(cheap, x) == (1.0 - s - x * low) * part;
    hide Paid, Slip, Share, ShortGainAt;
    ProductOrder(high, low, x);
    ProductOrder(1.0 - s - x * low, 1.0 - s - x * high, part);
  }

  /** The dear run has nothing left for a second short, nor for a long. */
  lemma DearStaysOut(dear: Setup, scene: Scene, x: real, rest: real)
    requires ShortScene(dear, scene, x, rest)
    requires Stands(dear, scene, 2, 0.0, None, true)
    ensures Stands(dear, scene, 4, 0.0, None, false)
  {
    hide After, AtrAt, Acts, SizeFor, PriceAt, StopOf, RuinFrom;
    SceneAtr(dear, scene, 2);
    ShortStop(x, AtrAt(dear, scene, 2));
    NoSize(dear, 0.0, Sell, x, AtrAt(dear, scene, 2), scene.script[2].confidence);
    Waits(dear, scene, 2, 0.0, true);
    NoSize(dear, 0.0, Buy, PriceAt(scene, 3), AtrAt(dear, scene, 3), scene.script[3].confidence);
    Waits(dear, scene, 3, 0.0, true);
  }

  /** The first short takes everything from the dear run; the cheap run has something left, and loses more with it. */
  lemma ShortRunsEnd(cheap: Setup, dear: Setup, scene: Scene, x: real, rest: real) returns (end: real)
    requires ShortScene(cheap, scene, x, rest) && ShortScene(dear, scene, x, rest) && rest > 0.0
    requires rest == cheap.start + ShortGainAt(cheap, x) && 0.0 == dear.start + ShortGainAt(dear, x)
    ensures end < 0.0
    ensures Stands(cheap, scene, 4, end, None, false) && Stands(dear, scene, 4, 0.0, None, false)
  {
    hide *;
    FirstShort(cheap, scene, x, rest, rest);
    var p;
    p, end := SecondShort(cheap, scene, x, rest);
    FirstShort(dear, scene, x, rest, 0.0);
    DearStaysOut(dear, scene, x, rest);
  }

  /** A price at which the dear run loses exactly everything. */
  lemma ShortStart(cheap: Setup, dear: Setup) returns (x: real, rest: real)
    requires FeePair(cheap, dear)
    ensures x > 0.0 && rest > 0.0
    ensures rest == cheap.start + ShortGainAt(cheap, x) && 0.0 == dear.start + ShortGainAt(dear, x)
  {
    assert cheap.start == dear.start;
    hide ShortGainAt, Slip, Trades;
    assert Trades(dear);
    x := LosingPrice(dear, 1.0);
    DearerBuyback(cheap, dear, x);
    rest := cheap.start + ShortGainAt(cheap, x);
  }

  lemma ShortScenes(cheap: Setup, dear: Setup, buy: Signal, sell: Signal, x: real, rest: real) returns (scene: Scene)
    requires FeePair(cheap, dear) && !cheap.spotOnly && Says(dear, buy, Buy) && Says(dear, sell, Sell)
    requires x > 0.0 && rest > 0.0
    ensures ShortScene(cheap, scene, x, rest) && ShortScene(dear, scene, x, rest)
    ensures Playable(scene) && |scene.script| == 4 && PricesNonNegative(BarsOf(dear, scene))
    ensures forall i | 0 <= i < |scene.script| :: scene.script[i] in {buy, sell}
  {
    FeeFacts(cheap, dear);
    hide *;
    SameSettings(cheap, dear);
    scene := StageShort(dear, buy, sell, x, rest);
    CheaperShortScene(cheap, dear, scene, x, rest);
  }

  lemma ShortRun(cheap: Setup, dear: Setup, buy: Signal, sell: Signal, signals: iset<Signal>)
    returns (strategy: Strategy, candles: seq<Candle>)
    requires FeePair(cheap, dear) && !cheap.spotOnly
    requires buy in signals && sell in signals && Says(dear, buy, Buy) && Says(dear, sell, Sell)
    ensures Draws(strategy, signals) && DearEndsRicher(cheap, dear, strategy, candles)
  {
    FeeFacts(cheap, dear);
    hide *;
    SameSettings(cheap, dear);
    var x, rest := ShortStart(cheap, dear);
    var scene := ShortScenes(cheap, dear, buy, sell, x, rest);
    var end := ShortRunsEnd(cheap, dear, scene, x, rest);
    strategy, candles := ScriptOf(cheap, scene), BarsOf(cheap, scene);
    SameBars(cheap, dear, scene);
    EndsRicher(cheap, dear, scene, end, 0.0);
    SceneDraws(cheap, scene, signals);
  }

  // ----- a buy between the fees -----

  lemma Distributes(kept: real, c: real, m: real, e: real, mk: real, stake: real, gain: real)
    requires mk == m * kept && stake == m * c && gain == (kept - c) * (m * e)
    ensures gain == e * (mk - stake)
  {
    assert (kept - c) * (m * e) == e * (m * kept) - e * (m * c);
  }

  lemma KeptShare(s: real, f: real, m: real, kept: real, mk: real, stake: real)
    requires 0.0 <= s < 1.0 && 0.0 <= f < 1.0 && m > 0.0
    requires kept == (1.0 - s) * (1.0 - f) && mk == m * kept && stake == m * (1.0 + s)
    ensures 0.0 < mk <= stake && (f > 0.0 ==> mk < stake)
  {
    var x, rest := 1.0 - s, 1.0 + s - kept;
    ProductSign(x, 1.0 - f);
    ProductNonNegative(x, f);
    assert kept == x - x * f;
    if f > 0.0 {
      ProductSign(x, f);
    }
    ProductSign(kept, m);
    ProductSign(rest, m);
    ProductNonNegative(rest, m);
    assert stake - mk == rest * m;
  }

  lemma FlatSale(setup: Setup, e: real, stake: real, mk: real)
    requires Trades(setup) && setup.feeRate < 1.0 && Slip(setup) < 1.0
    requires e == setup.start && stake == Stake(setup) && mk == Share(setup) * Kept(setup)
    ensures GainAt(setup, 1.0) == e * (mk - stake)
    ensures 0.0 < mk <= stake && (setup.feeRate > 0.0 ==> mk < stake)
  {
    var s, m, kept, gain := Slip(setup), Share(setup), Kept(setup), GainAt(setup, 1.0);
    assert m > 0.0 && 0.0 <= s && stake == m * (1.0 + s) && gain == (kept - (1.0 + s)) * (m * e);
    KeptShare(s, setup.feeRate, m, kept, mk, stake);
    hide *;
    Distributes(kept, 1.0 + s, m, e, mk, stake, gain);
  }

  /** A crash costs the cheap run more than the higher fee costs the dear one. */
  lemma CrashCostsMore(e: real, stake: real, low: real, high: real, first: real, end: real, left: real)
    requires e > 0.0 && 0.0 < low < stake && low < high <= stake <= 1.0
    requires first == e + e * (high - stake) && left == e + e * (low - stake) && end == first * (1.0 - stake)
    ensures first > 0.0 && end < left && end != e && left != e
  {
    assert first == e * (1.0 + high - stake);
    ProductSign(1.0 + high - stake, e);
    ProductNonNegative(stake - high, 1.0 - stake);
    var kept := (1.0 + high - stake) * (1.0 - stake);
    assert kept == 1.0 - stake - (stake - high) * (1.0 - stake);
    assert end == e * kept;
    assert left == e * (1.0 + low - stake);
    ProductOrder(1.0 + low - stake, kept, e);
    ProductOrder(1.0 + low - stake, 1.0, e);
  }

  lemma KeptOrder(s: real, f: real, g: real, high: real, low: real)
    requires s < 1.0 && f < g && high == (1.0 - s) * (1.0 - f) && low == (1.0 - s) * (1.0 - g)
    ensures low < high
  {
    ProductOrder(1.0 - f, 1.0 - g, 1.0 - s);
  }

  lemma KeepsLess(cheap: Setup, dear: Setup)
    requires FeePair(cheap, dear)
    ensures Share(dear) * Kept(dear) < Share(cheap) * Kept(cheap)
  {
    var s, low, high, share := Slip(cheap), Kept(dear), Kept(cheap), Share(cheap);
    SameSettings(cheap, dear);
    KeptOrder(s, cheap.feeRate, dear.feeRate, high, low);
    assert share > 0.0;
    hide Kept, Share;
    ProductOrder(high, low, share);
    SameFactor(share, Share(dear), low, share * low);
  }

  /** Where a flat sale at either fee, and then a crash of the cheap run, leave the two. */
  lemma FlatThenCrash(cheap: Setup, dear: Setup, e: real, stake: real, first: real, left: real, end: real)
    requires FeePair(cheap, dear) && e == cheap.start == dear.start && stake == Stake(cheap) == Stake(dear) <= 1.0
    requires first == e + GainAt(cheap, 1.0) && left == e + GainAt(dear, 1.0) && end == first * (1.0 - stake)
    ensures first > 0.0 && end < left && end != e && left != e
  {
    var low, high := Share(dear) * Kept(dear), Share(cheap) * Kept(cheap);
    KeepsLess(cheap, dear);
    hide GainAt, Stake, Share, Kept;
    FlatSale(cheap, e, stake, high);
    FlatSale(dear, e, stake, low);
    hide Slip;
    CrashCostsMore(e, stake, low, high, first, end, left);
  }

  /** The dear run leaves the second signal alone. */
  lemma DearSkipsBuy(dear: Setup, scene: Scene, y: real, k: nat, left: real)
    requires GainScene(dear, scene, y, k) && scene.script[k + 2].Scored? && !Acts(dear, scene.script[k + 2])
    requires Stands(dear, scene, 2, left, None, left >= 0.0)
    ensures Stands(dear, scene, k + 4, left, None, false)
  {
    hide After, AtrAt, QuietRange, Acts, PriceAt;
    WaitsLong(dear, scene, 2, k + 2, left, left >= 0.0);
    Waits(dear, scene, k + 2, left, left >= 0.0);
    Waits(dear, scene, k + 3, left, left >= 0.0);
  }

  lemma BuyRunsEnd(cheap: Setup, dear: Setup, scene: Scene, k: nat, e: real, stake: real)
    returns (x: real, z: real)
    requires FeePair(cheap, dear) && e == cheap.start == dear.start && stake == Stake(cheap) == Stake(dear) <= 1.0
    requires GainScene(cheap, scene, 1.0, k) && GainScene(dear, scene, 1.0, k)
    requires Says(cheap, scene.script[k + 2], Buy) && scene.script[k + 2].Scored? && !Acts(dear, scene.script[k + 2])
    ensures Stands(cheap, scene, k + 4, x, None, false) && Stands(dear, scene, k + 4, z, None, false)
    ensures x < z && x != e && z != e
  {
    hide *;
    var first := e + GainAt(cheap, 1.0);
    x, z := first * (1.0 - stake), e + GainAt(dear, 1.0);
    FlatThenCrash(cheap, dear, e, stake, first, z, x);
    FirstSale(cheap, scene, 1.0, k, first);
    SecondBuy(cheap, scene, 1.0, k, first, x);
    FirstSale(dear, scene, 1.0, k, z);
    DearSkipsBuy(dear, scene, 1.0, k, z);
  }

  /** Both make the same trade; then the cheap run alone buys on the signal, before a crash. */
  lemma BuyBetweenRun(cheap: Setup, dear: Setup, buy: Signal, sell: Signal, g: Signal, signals: iset<Signal>)
    returns (strategy: Strategy, candles: seq<Candle>)
    requires FeePair(cheap, dear) && cheap.spotOnly && Stake(cheap) <= 1.0
    requires buy in signals && sell in signals && Says(dear, buy, Buy) && Says(dear, sell, Sell)
    requires g in signals && Between(cheap, dear, g) && g.side.Buy?
    ensures Draws(strategy, signals) && DearEndsRicher(cheap, dear, strategy, candles)
  {
    FeeFacts(cheap, dear);
    assert g.Scored?;
    BetweenSays(cheap, dear, g);
    hide *;
    SameSettings(cheap, dear);
    var scene, k := StageGain(dear, buy, sell, g, 1.0);
    GainStarts(dear, scene, 1.0, k);
    CheaperGainScene(cheap, dear, scene, 1.0, k);
    var x, z := BuyRunsEnd(cheap, dear, scene, k, cheap.start, Stake(cheap));
    strategy, candles := ScriptOf(cheap, scene), BarsOf(cheap, scene);
    SameBars(cheap, dear, scene);
    EndsRicher(cheap, dear, scene, x, z);
    SceneDraws(cheap, scene, signals);
  }

  lemma BetweenSays(cheap: Setup, dear: Setup, g: Signal)
    requires OnlyFeesDiffer(cheap, dear) && Between(cheap, dear, g)
    ensures g.Scored? && Says(cheap, g, g.side) && !Acts(dear, g)
  {
    hide Acts;
    DecisionsAgree(cheap, dear, g);
  }

  // ----- a sell between the fees -----

  /** A position is held while its price stays inside its levels and no signal acts against it. */
  lemma Holds(setup: Setup, scene: Scene, k: nat, equity: real, p: Position, solvent: bool)
    requires Playable(scene) && k < |scene.script| && scene.script[k].Scored? && !Acts(setup, scene.script[k])
    requires Stands(setup, scene, k, equity, Some(p), solvent)
    requires -1.5 * AtrAt(setup, scene, k) < Move(p, PriceAt(scene, k)) < 2.25 * AtrAt(setup, scene, k)
    ensures Stands(setup, scene, k + 1, equity, Some(p), solvent && equity >= 0.0)
  {
    SceneAtr(setup, scene, k);
    ExitByMove(p, PriceAt(scene, k), AtrAt(setup, scene, k), None);
    hide AtrNow, After, AtrAt, PriceAt, Decide, ExitReason, Mark;
    ActsExactly(setup, scene.script[k]);
    StandsIs(setup, scene, k, equity, Some(p), solvent);
    var window := SceneStep(setup, scene, k);
    var a := After(setup, scene, k).value;
    Marked(a, a, solvent);
    StandsIs(setup, scene, k + 1, equity, Some(p), solvent && equity >= 0.0);
  }

  /** A purchase at 1, a signal a little below it, and a sale at `y`. */
  ghost predicate DipScene(setup: Setup, scene: Scene, y: real) {
    && Trades(setup) && setup.spotOnly && Slip(setup) < 1.0
    && Playable(scene) && |scene.script| == 3 && scene.range == (1.0 + Slip(setup)) / 3.0
    && Says(setup, scene.script[0], Buy) && scene.script[1].Scored? && Says(setup, scene.script[2], Sell)
    && scene.prices == [(3.0 + Slip(setup)) / 4.0, y]
  }

  function DipLong(setup: Setup, scene: Scene): (p: Position)
    requires Playable(scene) && |scene.script| == 3 && scene.script[0].Scored?
    ensures p.side.Buy?
  {
    var size := SizeAt(setup, scene, 0, setup.start);
    Entry(setup, scene, 0, Buy, if size.Sized? then size.quantity else 0.0)
  }

  lemma DipEntry(setup: Setup, scene: Scene, y: real)
    requires DipScene(setup, scene, y)
    ensures DipLong(setup, scene).entryPrice == 1.0 + Slip(setup) && DipLong(setup, scene).quantity > 0.0
    ensures Stands(setup, scene, 1, setup.start, Some(DipLong(setup, scene)), true)
  {
    assert setup.start > 0.0;
    hide After, AtrAt, Acts, SizeFor, Trades;
    SceneAtr(setup, scene, 0);
    SomeSize(setup, setup.start, Buy, 1.0, AtrAt(setup, scene, 0), scene.script[0].confidence);
    Starts(setup, scene);
    Enters(setup, scene, 0, setup.start, true, SizeAt(setup, scene, 0, setup.start).quantity);
  }

  lemma KeptAtMost(setup: Setup)
    requires Sane(setup)
    ensures 0.0 <= Kept(setup) <= 1.0
  {
    ProductNonNegative(1.0 - Slip(setup), 1.0 - setup.feeRate);
    FractionAtMost(1.0 - Slip(setup), 1.0 - setup.feeRate, Kept(setup));
  }

  lemma DipLoses(p: real, kept: real, entry: real, quantity: real, after: real, e: real)
    requires 0.0 < p < entry && 0.0 <= kept <= 1.0 && quantity > 0.0 && after == e + (p * kept - entry) * quantity
    ensures after < e
  {
    FractionAtMost(p, kept, p * kept);
    ProductSign(entry - p * kept, quantity);
  }

  lemma DipFacts(setup: Setup, scene: Scene, y: real)
    requires DipScene(setup, scene, y)
    ensures Sane(setup) && setup.spotOnly && setup.start > 0.0
    ensures Playable(scene) && |scene.script| == 3
    ensures scene.script[0].Scored? && scene.script[1].Scored? && Says(setup, scene.script[2], Sell)
    ensures scene.script[2].Scored? && scene.script[2].side.Sell?
    ensures 0.0 < PriceAt(scene, 1) < 1.0 + Slip(setup) && PriceAt(scene, 2) == y
  {
    hide Acts;
  }

  /** The dip is too shallow for the stop. */
  lemma DipHolds(setup: Setup, scene: Scene, y: real, p: Position)
    requires DipScene(setup, scene, y) && p.side.Buy? && p.entryPrice == 1.0 + Slip(setup)
    ensures -1.5 * AtrAt(setup, scene, 1) < Move(p, PriceAt(scene, 1)) < 2.25 * AtrAt(setup, scene, 1)
  {
    hide Acts, AtrAt;
    SceneAtr(setup, scene, 1);
  }

  /** The cheap run sells at a loss. */
  lemma CheapSellsDip(cheap: Setup, scene: Scene, y: real) returns (after: real)
    requires DipScene(cheap, scene, y) && Says(cheap, scene.script[1], Sell)
    ensures after < cheap.start && Stands(cheap, scene, 3, after, None, false)
  {
    hide *;
    DipFacts(cheap, scene, y);
    DipEntry(cheap, scene, y);
    KeptAtMost(cheap);
    var p, price := DipLong(cheap, scene), PriceAt(scene, 1);
    after := cheap.start + (price * Kept(cheap) - p.entryPrice) * p.quantity;
    DipLoses(price, Kept(cheap), p.entryPrice, p.quantity, after, cheap.start);
    SellsAll(cheap, scene, 1, cheap.start, p, true, after);
    Waits(cheap, scene, 2, after, after >= 0.0);
    Weaker(cheap, scene, 3, after, after >= 0.0);
  }

  lemma Weaker(setup: Setup, scene: Scene, k: nat, equity: real, solvent: bool)
    requires Playable(scene) && k <= |scene.script| && Stands(setup, scene, k, equity, None, solvent)
    ensures Stands(setup, scene, k, equity, None, false)
  {
    hide Reaches;
  }

  lemma RecoveryGain(y: real, kept: real, s: real, entry: real, quantity: real, gain: real)
    requires y * kept == 2.0 + s && entry == 1.0 + s && gain == (y * kept - entry) * quantity
    ensures gain == quantity
  {
    SameFactor(y * kept - entry, 1.0, quantity, gain);
  }

  /** The dear run holds on, and sells at a gain. */
  lemma DearSellsLater(dear: Setup, scene: Scene, y: real) returns (after: real)
    requires DipScene(dear, scene, y) && !Acts(dear, scene.script[1])
    requires y * Kept(dear) == 2.0 + Slip(dear)
    ensures after > dear.start && Stands(dear, scene, 3, after, None, false)
  {
    hide *;
    DipFacts(dear, scene, y);
    DipEntry(dear, scene, y);
    var p := DipLong(dear, scene);
    DipHolds(dear, scene, y, p);
    Holds(dear, scene, 1, dear.start, p, true);
    var gain := (PriceAt(scene, 2) * Kept(dear) - p.entryPrice) * p.quantity;
    RecoveryGain(PriceAt(scene, 2), Kept(dear), Slip(dear), p.entryPrice, p.quantity, gain);
    after := dear.start + gain;
    SellsAll(dear, scene, 2, dear.start, p, true, after);
    Weaker(dear, scene, 3, after, after >= 0.0);
  }

  lemma RecoveryPrice(dear: Setup) returns (y: real)
    requires Sane(dear) && Slip(dear) < 1.0 && dear.feeRate < 1.0
    ensures y > 0.0 && y * Kept(dear) == 2.0 + Slip(dear)
  {
    ProductSign(1.0 - Slip(dear), 1.0 - dear.feeRate);
    y := (2.0 + Slip(dear)) / Kept(dear);
    QuotientSign(2.0 + Slip(dear), Kept(dear));
  }

  lemma StageDip(cheap: Setup, dear: Setup, buy: Signal, sell: Signal, g: Signal, y: real) returns (scene: Scene)
    requires FeePair(cheap, dear) && cheap.spotOnly && g.Scored? && y > 0.0
    requires Says(dear, buy, Buy) && Says(dear, sell, Sell)
    ensures DipScene(cheap, scene, y) && DipScene(dear, scene, y) && PricesNonNegative(BarsOf(cheap, scene))
    ensures scene.script[1] == g && forall i | 0 <= i < |scene.script| :: scene.script[i] in {buy, sell, g}
  {
    hide Acts, BarsOf;
    SaysCheaper(cheap, dear, buy, Buy);
    SaysCheaper(cheap, dear, sell, Sell);
    scene := Scene([buy, g, sell], [(3.0 + Slip(cheap)) / 4.0, y], (1.0 + Slip(cheap)) / 3.0);
    ScenePrices(cheap, scene);
  }

  /** Both buy; the cheap run alone sells on the signal, just before the price recovers. */
  lemma SellBetweenRun(cheap: Setup, dear: Setup, buy: Signal, sell: Signal, g: Signal, signals: iset<Signal>)
    returns (strategy: Strategy, candles: seq<Candle>)
    requires FeePair(cheap, dear) && cheap.spotOnly
    requires buy in signals && sell in signals && Says(dear, buy, Buy) && Says(dear, sell, Sell)
    requires g in signals && Between(cheap, dear, g) && g.side.Sell?
    ensures Draws(strategy, signals) && DearEndsRicher(cheap, dear, strategy, candles)
  {
    FeeFacts(cheap, dear);
    BetweenSays(cheap, dear, g);
    hide *;
    SameSettings(cheap, dear);
    var y := RecoveryPrice(dear);
    var scene := StageDip(cheap, dear, buy, sell, g, y);
    DipFacts(cheap, scene, y);
    var x := CheapSellsDip(cheap, scene, y);
    var z := DearSellsLater(dear, scene, y);
    strategy, candles := ScriptOf(cheap, scene), BarsOf(cheap, scene);
    EndsRicher(cheap, dear, scene, x, z);
    SceneDraws(cheap, scene, signals);
  }

  // ----- exactly when a lower fee never hurts -----

  /** A run at the lower fee never ends poorer, whatever the strategy makes of its signals. */
  ghost predicate NeverPoorer(cheap: Setup, dear: Setup, signals: iset<Signal>) {
    forall strategy: Strategy, candles: seq<Candle> |
      && Draws(strategy, signals) && PricesNonNegative(candles)
      && RunTo(cheap, strategy, candles, |candles|).Some? && RunTo(dear, strategy, candles, |candles|).Some? ::
      RunTo(cheap, strategy, candles, |candles|).value.equity >= RunTo(dear, strategy, candles, |candles|).value.equity
  }

  /** And not where both runs have closed a trade either. */
  ghost predicate NeverPoorerTrading(cheap: Setup, dear: Setup, signals: iset<Signal>) {
    forall strategy: Strategy, candles: seq<Candle> | Draws(strategy, signals) ::
      !DearEndsRicher(cheap, dear, strategy, candles)
  }

  lemma AgreedNeverPoorer(cheap: Setup, dear: Setup, signals: iset<Signal>)
    requires FeePair(cheap, dear) && cheap.spotOnly && Stake(cheap) <= 1.0
    requires forall g | g in signals :: !Between(cheap, dear, g)
    ensures NeverPoorer(cheap, dear, signals)
  {
    assert SpotPair(cheap, dear);
    hide RunTo, Stake, PricesNonNegative, Between, SpotSetup;
    forall strategy: Strategy, candles: seq<Candle> |
        && Draws(strategy, signals) && PricesNonNegative(candles)
        && RunTo(cheap, strategy, candles, |candles|).Some? && RunTo(dear, strategy, candles, |candles|).Some?
      ensures RunTo(cheap, strategy, candles, |candles|).value.equity
           >= RunTo(dear, strategy, candles, |candles|).value.equity
    {
      FeesNeverHelp(cheap, dear, strategy, candles, |candles|);
    }
  }

  /** Outside the condition there is a run that the higher fee makes richer. */
  lemma SomePoorer(cheap: Setup, dear: Setup, signals: iset<Signal>, buy: Signal, sell: Signal)
    requires FeePair(cheap, dear) && buy in signals && sell in signals
    requires Says(dear, buy, Buy) && Says(dear, sell, Sell)
    requires !cheap.spotOnly || Stake(cheap) > 1.0 || exists g :: g in signals && Between(cheap, dear, g)
    ensures !NeverPoorerTrading(cheap, dear, signals)
  {
    hide FeePair, Stake, Between, Says, DearEndsRicher, Draws;
    var strategy, candles;
    if !cheap.spotOnly {
      strategy, candles := ShortRun(cheap, dear, buy, sell, signals);
    } else if Stake(cheap) > 1.0 {
      strategy, candles := StakeRun(cheap, dear, buy, sell, signals);
    } else {
      var g :| g in signals && Between(cheap, dear, g);
      BetweenScored(cheap, dear, g);
      if g.side.Buy? {
        strategy, candles := BuyBetweenRun(cheap, dear, buy, sell, g, signals);
      } else {
        strategy, candles := SellBetweenRun(cheap, dear, buy, sell, g, signals);
      }
    }
  }

  lemma BetweenScored(cheap: Setup, dear: Setup, g: Signal)
    requires Between(cheap, dear, g)
    ensures g.Scored?
  {
  }

  lemma PoorerWhenTrading(cheap: Setup, dear: Setup, signals: iset<Signal>)
    requires NeverPoorer(cheap, dear, signals)
    ensures NeverPoorerTrading(cheap, dear, signals)
  {
    hide RunTo, PricesNonNegative, Draws;
  }

  /**
   * For any two fees and any repertoire of signals in which at least one buy and one sell come through at either fee:
   * no strategy ends poorer at the lower fee, on any non-negative prices, if and only if the backtest is spot only,
   * its stake is at most the equity, and no signal of the repertoire lies between the fees. The same three conditions
   * decide it over those runs alone in which both have closed a trade.
   */
  lemma FeesExactly(cheap: Setup, dear: Setup, signals: iset<Signal>, buy: Signal, sell: Signal)
    requires FeePair(cheap, dear) && buy in signals && sell in signals
    requires Says(dear, buy, Buy) && Says(dear, sell, Sell)
    ensures NeverPoorer(cheap, dear, signals) <==>
      (cheap.spotOnly && Stake(cheap) <= 1.0 && forall g | g in signals :: !Between(cheap, dear, g))
    ensures NeverPoorerTrading(cheap, dear, signals) <==>
      (cheap.spotOnly && Stake(cheap) <= 1.0 && forall g | g in signals :: !Between(cheap, dear, g))
  {
    hide *;
    if cheap.spotOnly && Stake(cheap) <= 1.0 && forall g | g in signals :: !Between(cheap, dear, g) {
      AgreedNeverPoorer(cheap, dear, signals);
      PoorerWhenTrading(cheap, dear, signals);
    } else {
      SomePoorer(cheap, dear, signals, buy, sell);
      if NeverPoorer(cheap, dear, signals) {
        PoorerWhenTrading(cheap, dear, signals);
      }
    }
  }

  /** All signals on which two fees agree. */
  ghost function AgreedSignals(cheap: Setup, dear: Setup): iset<Signal> {
    iset g: Signal | !Between(cheap, dear, g)
  }

  /** So on equal decisions it is a matter of the settings alone. */
  lemma FeesExactlyAgreed(cheap: Setup, dear: Setup)
    requires FeePair(cheap, dear)
    ensures forall strategy: Strategy :: Draws(strategy, AgreedSignals(cheap, dear)) <==> Agreed(cheap, dear, strategy)
    ensures NeverPoorer(cheap, dear, AgreedSignals(cheap, dear)) <==> (cheap.spotOnly && Stake(cheap) <= 1.0)
  {
    var buy, sell := Strong(dear, Buy), Strong(dear, Sell);
    StrongSays(dear, Buy);
    StrongSays(dear, Sell);
    hide FeePair, Stake, Strong, NeverPoorer, Acts;
    FeeFacts(cheap, dear);
    DecisionsAgree(cheap, dear, buy);
    DecisionsAgree(cheap, dear, sell);
    hide Between;
    FeesExactly(cheap, dear, AgreedSignals(cheap, dear), buy, sell);
  }

  /** A signal between the fees: its expected return covers the lower fee and not the higher one. */
  function Marginal(cheap: Setup, dear: Setup, side: Side): (g: Signal)
    requires FeePair(cheap, dear)
    ensures g.Scored? && g.side == side && Between(cheap, dear, g)
  {
    Scored(side, cheap.minConfidence, cheap.minEdge + cheap.feeRate, 6.0, 1.0, false)
  }

  /** There is always such a signal, so at any two fees some run that trades at both ends richer at the higher one. */
  lemma FeesCanHelp(cheap: Setup, dear: Setup) returns (strategy: Strategy, candles: seq<Candle>)
    requires FeePair(cheap, dear)
    ensures DearEndsRicher(cheap, dear, strategy, candles)
  {
    FeeFacts(cheap, dear);
    StrongSays(dear, Buy);
    StrongSays(dear, Sell);
    var buy, sell, g := Strong(dear, Buy), Strong(dear, Sell), Marginal(cheap, dear, Sell);
    hide *;
    if cheap.spotOnly {
      strategy, candles := SellBetweenRun(cheap, dear, buy, sell, g, iset{buy, sell, g});
    } else {
      strategy, candles := ShortRun(cheap, dear, buy, sell, iset{buy, sell});
    }
  }
}
