/** The recursive EMA and the indicators built on it: RSI, ATR and ADX. */
module Indicators {
  import opened Common

  function Alpha(span: nat): real {
    2.0 / (span as real + 1.0)
  }

  function Blend(alpha: real, x: real, previous: real): real {
    alpha * x + (1.0 - alpha) * previous
  }

  function Ema(values: seq<real>, alpha: real): (r: seq<real>)
    ensures |r| == |values|
  {
    if |values| <= 1 then values
    else
      var n := |values| - 1;
      var before := Ema(values[..n], alpha);
      before + [Blend(alpha, values[n], before[n - 1])]
  }

  /** The array the loop fills. An empty series raises in the source. */
  method EmaArray(values: seq<real>, span: nat) returns (out: array<real>)
    requires values != []
    ensures fresh(out) && out[..] == Ema(values, Alpha(span))
  {
    hide Blend;
    var alpha := 2.0 / (span as real + 1.0);
    out := new real[|values|];
    out[0] := values[0];
    assert values[..1] == [values[0]] && out[..1] == [values[0]];
    for i := 1 to |values|
      invariant out[..i] == Ema(values[..i], alpha)
    {
      assert values[..i + 1][..i] == values[..i];
      out[i] := Blend(alpha, values[i], out[i - 1]);
      assert out[..i + 1] == out[..i] + [out[i]];
    }
    assert values[..|values|] == values && out[..|values|] == out[..];
  }

  // ----- EMA: bounds and scaling -----

  ghost predicate Within(values: seq<real>, lo: real, hi: real) {
    forall i | 0 <= i < |values| :: lo <= values[i] <= hi
  }

  lemma BlendWithin(alpha: real, x: real, previous: real, lo: real, hi: real)
    requires 0.0 <= alpha <= 1.0 && lo <= x <= hi && lo <= previous <= hi
    ensures lo <= Blend(alpha, x, previous) <= hi
  {
    var rest := 1.0 - alpha;
    ProductNonNegative(alpha, x - lo);
    ProductNonNegative(rest, previous - lo);
    ProductNonNegative(alpha, hi - x);
    ProductNonNegative(rest, hi - previous);
    assert Blend(alpha, x, previous) - lo == alpha * (x - lo) + rest * (previous - lo);
    assert hi - Blend(alpha, x, previous) == alpha * (hi - x) + rest * (hi - previous);
  }

  lemma {:induction false} EmaWithin(values: seq<real>, alpha: real, lo: real, hi: real)
    requires 0.0 <= alpha <= 1.0 && Within(values, lo, hi)
    ensures Within(Ema(values, alpha), lo, hi)
  {
    hide Blend;
    if |values| > 1 {
      var n := |values| - 1;
      EmaWithin(values[..n], alpha, lo, hi);
      BlendWithin(alpha, values[n], Ema(values[..n], alpha)[n - 1], lo, hi);
    }
  }

  lemma AlphaIsFraction(span: nat)
    requires span >= 1
    ensures 0.0 < Alpha(span) <= 1.0
  {
    QuotientOrder(2.0, span as real + 1.0, 1.0);
    QuotientSign(2.0, span as real + 1.0);
  }

  /** Every EMA value lies between the smallest and the largest input. */
  lemma EmaBetweenMinAndMax(values: seq<real>, span: nat)
    requires values != [] && span >= 1
    ensures Within(Ema(values, Alpha(span)), MinOf(values), MaxOf(values))
  {
    AlphaIsFraction(span);
    assert forall i | 0 <= i < |values| :: values[i] in values;
    EmaWithin(values, Alpha(span), MinOf(values), MaxOf(values));
  }

  function Scaled(k: real, values: seq<real>): (r: seq<real>)
    ensures |r| == |values| && forall i | 0 <= i < |r| :: r[i] == Times(k, values[i])
  {
    seq(|values|, i requires 0 <= i < |values| => Times(k, values[i]))
  }

  lemma BlendScales(k: real, alpha: real, x: real, previous: real)
    ensures Blend(alpha, Times(k, x), Times(k, previous)) == Times(k, Blend(alpha, x, previous))
  {
    assert alpha * (k * x) == k * (alpha * x);
    assert (1.0 - alpha) * (k * previous) == k * ((1.0 - alpha) * previous);
  }

  lemma {:induction false} EmaScales(k: real, values: seq<real>, alpha: real)
    ensures Ema(Scaled(k, values), alpha) == Scaled(k, Ema(values, alpha))
  {
    hide Blend, Times;
    if |values| > 1 {
      var n := |values| - 1;
      EmaScales(k, values[..n], alpha);
      assert Scaled(k, values)[..n] == Scaled(k, values[..n]);
      BlendScales(k, alpha, values[n], Ema(values[..n], alpha)[n - 1]);
    }
  }

  // ----- RSI -----

  /** Differences, the first one against itself. */
  function Delta(close: seq<real>, i: nat): real
    requires i < |close|
  {
    if i == 0 then 0.0 else close[i] - close[i - 1]
  }

  function Gains(close: seq<real>): (r: seq<real>)
    ensures |r| == |close|
    ensures forall i | 0 <= i < |r| :: r[i] == Max(Delta(close, i), 0.0)
  {
    seq(|close|, i requires 0 <= i < |close| => Max(Delta(close, i), 0.0))
  }

  function Losses(close: seq<real>): (r: seq<real>)
    ensures |r| == |close|
    ensures forall i | 0 <= i < |r| :: r[i] == Max(-Delta(close, i), 0.0)
  {
    seq(|close|, i requires 0 <= i < |close| => Max(-Delta(close, i), 0.0))
  }

  /** 100 where there are no losses: the relative strength is then infinite. */
  function RsiPoint(gain: real, loss: real): real {
    if loss == 0.0 then 100.0
    else if 1.0 + gain / loss == 0.0 then 100.0
    else 100.0 - 100.0 / (1.0 + gain / loss)
  }

  function Rsi(close: seq<real>, period: nat): (r: seq<real>)
    ensures |r| == |close|
    ensures forall i | 0 <= i < |r| ::
              r[i] == RsiPoint(Ema(Gains(close), Alpha(period))[i], Ema(Losses(close), Alpha(period))[i])
  {
    var gain, loss := Ema(Gains(close), Alpha(period)), Ema(Losses(close), Alpha(period));
    seq(|close|, i requires 0 <= i < |close| => RsiPoint(gain[i], loss[i]))
  }

  lemma RsiPointRange(gain: real, loss: real)
    requires gain >= 0.0 && loss >= 0.0
    ensures 0.0 <= RsiPoint(gain, loss) <= 100.0
  {
    if loss != 0.0 {
      var strength := gain / loss;
      QuotientSign(gain, loss);
      QuotientOrder(100.0, 1.0 + strength, 100.0);
      QuotientOrder(100.0, 1.0 + strength, 0.0);
    }
  }

  lemma NonNegativeEma(values: seq<real>, period: nat)
    requires period >= 1 && forall i | 0 <= i < |values| :: values[i] >= 0.0
    ensures forall i | 0 <= i < |values| :: Ema(values, Alpha(period))[i] >= 0.0
  {
    if values != [] {
      AlphaIsFraction(period);
      assert forall i | 0 <= i < |values| :: values[i] in values;
      EmaWithin(values, Alpha(period), 0.0, MaxOf(values));
    }
  }

  /** RSI stays between 0 and 100 on every price series. */
  lemma RsiRange(close: seq<real>, period: nat)
    requires period >= 1
    ensures Within(Rsi(close, period), 0.0, 100.0)
  {
    hide RsiPoint;
    NonNegativeEma(Gains(close), period);
    NonNegativeEma(Losses(close), period);
    forall i | 0 <= i < |close|
      ensures 0.0 <= Rsi(close, period)[i] <= 100.0
    {
      RsiPointRange(Ema(Gains(close), Alpha(period))[i], Ema(Losses(close), Alpha(period))[i]);
    }
  }

  lemma RatioScales(k: real, x: real, y: real, kx: real, ky: real)
    requires k != 0.0 && y != 0.0 && kx == Times(k, x) && ky == Times(k, y)
    ensures ky != 0.0 && kx / ky == x / y
  {
    var ratio := x / y;
    QuotientTimes(x, y);
    assert kx == ratio * ky;
    TimesQuotient(ratio, ky);
  }

  lemma MaxScales(k: real, x: real)
    requires k > 0.0
    ensures Max(Times(k, x), 0.0) == Times(k, Max(x, 0.0))
    ensures Max(-Times(k, x), 0.0) == Times(k, Max(-x, 0.0))
  {
    hide Times, Max;
    TimesOrder(k, x, 0.0);
    TimesMax(k, x, 0.0);
    TimesMax(k, -x, 0.0);
  }

  lemma DeltaScales(k: real, close: seq<real>, i: nat)
    requires i < |close|
    ensures Delta(Scaled(k, close), i) == Times(k, Delta(close, i))
  {
    hide Times;
    if i > 0 {
      TimesMinus(k, close[i], close[i - 1]);
    } else {
      TimesMinus(k, close[0], close[0]);
      TimesMinus(k, 0.0, 0.0);
    }
  }

  lemma RsiPointScales(k: real, gain: real, loss: real)
    requires k > 0.0
    ensures RsiPoint(Times(k, gain), Times(k, loss)) == RsiPoint(gain, loss)
  {
    if loss != 0.0 {
      RatioScales(k, gain, loss, Times(k, gain), Times(k, loss));
    } else {
      TimesOrder(k, 0.0, 0.0);
    }
  }

  lemma GainsLossesScale(k: real, close: seq<real>)
    requires k > 0.0
    ensures Gains(Scaled(k, close)) == Scaled(k, Gains(close))
    ensures Losses(Scaled(k, close)) == Scaled(k, Losses(close))
  {
    hide Times, Delta, Max;
    forall i | 0 <= i < |close|
      ensures Gains(Scaled(k, close))[i] == Times(k, Gains(close)[i])
      ensures Losses(Scaled(k, close))[i] == Times(k, Losses(close)[i])
    {
      DeltaScales(k, close, i);
      MaxScales(k, Delta(close, i));
    }
  }

  /** Scaling all prices leaves the RSI where it was. */
  lemma RsiScaleFree(k: real, close: seq<real>, period: nat)
    requires k > 0.0
    ensures Rsi(Scaled(k, close), period) == Rsi(close, period)
  {
    hide RsiPoint, Times, Gains, Losses;
    var alpha := Alpha(period);
    GainsLossesScale(k, close);
    EmaScales(k, Gains(close), alpha);
    EmaScales(k, Losses(close), alpha);
    forall i | 0 <= i < |close|
      ensures Rsi(Scaled(k, close), period)[i] == Rsi(close, period)[i]
    {
      RsiPointScales(k, Ema(Gains(close), alpha)[i], Ema(Losses(close), alpha)[i]);
    }
  }

  // ----- true range, ATR -----

  function Max3(x: real, y: real, z: real): real {
    Max(Max(x, y), z)
  }

  function RangeOf(high: real, low: real, previousClose: real): real {
    Max3(high - low, Abs(high - previousClose), Abs(low - previousClose))
  }

  /** ATR's true ranges; the first bar is measured against its own close. */
  function TrueRanges(high: seq<real>, low: seq<real>, close: seq<real>): (r: seq<real>)
    requires |high| == |low| == |close|
    ensures |r| == |close|
    ensures forall i | 0 <= i < |r| :: r[i] == RangeOf(high[i], low[i], if i == 0 then close[0] else close[i - 1])
  {
    seq(|close|, i requires 0 <= i < |close| =>
      RangeOf(high[i], low[i], if i == 0 then close[0] else close[i - 1]))
  }

  function Atr(high: seq<real>, low: seq<real>, close: seq<real>, period: nat): seq<real>
    requires |high| == |low| == |close|
  {
    Ema(TrueRanges(high, low, close), Alpha(period))
  }

  lemma RangeScales(k: real, high: real, low: real, previous: real)
    requires k > 0.0
    ensures RangeOf(Times(k, high), Times(k, low), Times(k, previous)) == Times(k, RangeOf(high, low, previous))
  {
    hide Times, Abs, Max;
    TimesMinus(k, high, low);
    TimesMinus(k, high, previous);
    TimesMinus(k, low, previous);
    TimesAbs(k, high - previous);
    TimesAbs(k, low - previous);
    TimesMax(k, high - low, Abs(high - previous));
    TimesMax(k, Max(high - low, Abs(high - previous)), Abs(low - previous));
  }

  /** Scaling all prices scales the ATR by the same factor. */
  lemma AtrScales(k: real, high: seq<real>, low: seq<real>, close: seq<real>, period: nat)
    requires k > 0.0 && |high| == |low| == |close|
    ensures Atr(Scaled(k, high), Scaled(k, low), Scaled(k, close), period) == Scaled(k, Atr(high, low, close, period))
  {
    hide RangeOf, Times;
    var ranges := TrueRanges(high, low, close);
    forall i | 0 <= i < |close|
      ensures TrueRanges(Scaled(k, high), Scaled(k, low), Scaled(k, close))[i] == Times(k, ranges[i])
    {
      RangeScales(k, high[i], low[i], if i == 0 then close[0] else close[i - 1]);
    }
    assert TrueRanges(Scaled(k, high), Scaled(k, low), Scaled(k, close)) == Scaled(k, ranges);
    EmaScales(k, ranges, Alpha(period));
  }

  // ----- ADX -----

  /** A directional move counts when it is positive and beats the opposite one. */
  function Move(own: real, other: real): real {
    if own > other && own > 0.0 then own else 0.0
  }

  function Up(high: seq<real>, i: nat): real
    requires i + 1 < |high|
  {
    high[i + 1] - high[i]
  }

  function Down(low: seq<real>, i: nat): real
    requires i + 1 < |low|
  {
    low[i] - low[i + 1]
  }

  function PlusMoves(high: seq<real>, low: seq<real>): (r: seq<real>)
    requires |high| == |low| > 0
    ensures |r| == |high| - 1
    ensures forall i | 0 <= i < |r| :: r[i] == Move(Up(high, i), Down(low, i))
  {
    seq(|high| - 1, i requires 0 <= i < |high| - 1 => Move(Up(high, i), Down(low, i)))
  }

  function MinusMoves(high: seq<real>, low: seq<real>): (r: seq<real>)
    requires |high| == |low| > 0
    ensures |r| == |high| - 1
    ensures forall i | 0 <= i < |r| :: r[i] == Move(Down(low, i), Up(high, i))
  {
    seq(|high| - 1, i requires 0 <= i < |high| - 1 => Move(Down(low, i), Up(high, i)))
  }

  function LaterRanges(high: seq<real>, low: seq<real>, close: seq<real>): (r: seq<real>)
    requires |high| == |low| == |close| > 0
    ensures |r| == |close| - 1
    ensures forall i | 0 <= i < |r| :: r[i] == RangeOf(high[i + 1], low[i + 1], close[i])
  {
    seq(|close| - 1, i requires 0 <= i < |close| - 1 => RangeOf(high[i + 1], low[i + 1], close[i]))
  }

  /** The directional index of one bar; where it is not a number it counts as zero. */
  function DxPoint(plus: real, minus: real, range: real): real {
    if range == 0.0 then 0.0
    else
      var p, m := 100.0 * plus / range, 100.0 * minus / range;
      if p + m == 0.0 then 0.0 else 100.0 * Abs(p - m) / (p + m)
  }

  function Dx(high: seq<real>, low: seq<real>, close: seq<real>, period: nat): (r: seq<real>)
    requires |high| == |low| == |close| > 0
    ensures |r| == |close| - 1
    ensures forall i | 0 <= i < |r| ::
              r[i] == DxPoint(Ema(PlusMoves(high, low), Alpha(period))[i], Ema(MinusMoves(high, low), Alpha(period))[i],
                              Ema(LaterRanges(high, low, close), Alpha(period))[i])
  {
    var plus, minus := Ema(PlusMoves(high, low), Alpha(period)), Ema(MinusMoves(high, low), Alpha(period));
    var range := Ema(LaterRanges(high, low, close), Alpha(period));
    seq(|close| - 1, i requires 0 <= i < |close| - 1 => DxPoint(plus[i], minus[i], range[i]))
  }

  /** A period of zero makes the source index an empty array. */
  function Adx(high: seq<real>, low: seq<real>, close: seq<real>, period: nat): real
    requires |high| == |low| == |close| && period >= 1
  {
    if |close| < period + 1 then 0.0
    else
      var smoothed := Ema(Dx(high, low, close, period), Alpha(period));
      smoothed[|smoothed| - 1]
  }

  lemma DxPointRange(plus: real, minus: real, range: real)
    requires plus >= 0.0 && minus >= 0.0 && range >= 0.0
    ensures 0.0 <= DxPoint(plus, minus, range) <= 100.0
  {
    if range != 0.0 {
      var p, m := 100.0 * plus / range, 100.0 * minus / range;
      QuotientSign(100.0 * plus, range);
      QuotientSign(100.0 * minus, range);
      if p + m != 0.0 {
        QuotientOrder(100.0 * Abs(p - m), p + m, 0.0);
        QuotientOrder(100.0 * Abs(p - m), p + m, 100.0);
      }
    }
  }

  lemma RangeNonNegative(high: real, low: real, previous: real)
    ensures RangeOf(high, low, previous) >= 0.0
  {
  }

  lemma DxRange(high: seq<real>, low: seq<real>, close: seq<real>, period: nat)
    requires |high| == |low| == |close| > 0 && period >= 1
    ensures Within(Dx(high, low, close, period), 0.0, 100.0)
  {
    hide DxPoint, RangeOf;
    forall i | 0 <= i < |close| - 1
      ensures LaterRanges(high, low, close)[i] >= 0.0
    {
      RangeNonNegative(high[i + 1], low[i + 1], close[i]);
    }
    NonNegativeEma(PlusMoves(high, low), period);
    NonNegativeEma(MinusMoves(high, low), period);
    NonNegativeEma(LaterRanges(high, low, close), period);
    forall i | 0 <= i < |close| - 1
      ensures 0.0 <= Dx(high, low, close, period)[i] <= 100.0
    {
      DxPointRange(Ema(PlusMoves(high, low), Alpha(period))[i], Ema(MinusMoves(high, low), Alpha(period))[i],
                   Ema(LaterRanges(high, low, close), Alpha(period))[i]);
    }
  }

  /** ADX stays between 0 and 100 on every price series, even one whose highs are below its lows. */
  lemma AdxRange(high: seq<real>, low: seq<real>, close: seq<real>, period: nat)
    requires |high| == |low| == |close| && period >= 1
    ensures 0.0 <= Adx(high, low, close, period) <= 100.0
  {
    if |close| >= period + 1 {
      DxRange(high, low, close, period);
      AlphaIsFraction(period);
      EmaWithin(Dx(high, low, close, period), Alpha(period), 0.0, 100.0);
    }
  }

  lemma MoveScales(k: real, own: real, other: real)
    requires k > 0.0
    ensures Move(Times(k, own), Times(k, other)) == Times(k, Move(own, other))
  {
    hide Times;
    TimesOrder(k, own, other);
    TimesOrder(k, own, 0.0);
  }

  lemma DxPointScales(k: real, plus: real, minus: real, range: real)
    requires k > 0.0
    ensures DxPoint(Times(k, plus), Times(k, minus), Times(k, range)) == DxPoint(plus, minus, range)
  {
    hide Abs;
    ProductSign(range, k);
    if range != 0.0 {
      RatioScales(k, 100.0 * plus, range, 100.0 * Times(k, plus), Times(k, range));
      RatioScales(k, 100.0 * minus, range, 100.0 * Times(k, minus), Times(k, range));
    }
  }

  lemma MovesScale(k: real, high: seq<real>, low: seq<real>)
    requires k > 0.0 && |high| == |low| > 0
    ensures PlusMoves(Scaled(k, high), Scaled(k, low)) == Scaled(k, PlusMoves(high, low))
    ensures MinusMoves(Scaled(k, high), Scaled(k, low)) == Scaled(k, MinusMoves(high, low))
  {
    hide Move, Times, Up, Down;
    forall i | 0 <= i < |high| - 1
      ensures PlusMoves(Scaled(k, high), Scaled(k, low))[i] == Times(k, PlusMoves(high, low)[i])
      ensures MinusMoves(Scaled(k, high), Scaled(k, low))[i] == Times(k, MinusMoves(high, low)[i])
    {
      StepsScale(k, high, low, i);
      MoveScales(k, Up(high, i), Down(low, i));
      MoveScales(k, Down(low, i), Up(high, i));
    }
  }

  lemma StepsScale(k: real, high: seq<real>, low: seq<real>, i: nat)
    requires |high| == |low| && i + 1 < |high|
    ensures Up(Scaled(k, high), i) == Times(k, Up(high, i))
    ensures Down(Scaled(k, low), i) == Times(k, Down(low, i))
  {
    TimesMinus(k, high[i + 1], high[i]);
    TimesMinus(k, low[i], low[i + 1]);
    hide Times;
  }

  lemma LaterRangesScale(k: real, high: seq<real>, low: seq<real>, close: seq<real>)
    requires k > 0.0 && |high| == |low| == |close| > 0
    ensures LaterRanges(Scaled(k, high), Scaled(k, low), Scaled(k, close)) == Scaled(k, LaterRanges(high, low, close))
  {
    hide RangeOf, Times;
    forall i | 0 <= i < |close| - 1
      ensures LaterRanges(Scaled(k, high), Scaled(k, low), Scaled(k, close))[i]
           == Times(k, LaterRanges(high, low, close)[i])
    {
      RangeScales(k, high[i + 1], low[i + 1], close[i]);
    }
  }

  lemma DxScaleFree(k: real, high: seq<real>, low: seq<real>, close: seq<real>, period: nat)
    requires k > 0.0 && |high| == |low| == |close| > 0
    ensures Dx(Scaled(k, high), Scaled(k, low), Scaled(k, close), period) == Dx(high, low, close, period)
  {
    hide DxPoint, RangeOf, Move, Times, PlusMoves, MinusMoves, LaterRanges, Ema;
    var alpha := Alpha(period);
    MovesScale(k, high, low);
    LaterRangesScale(k, high, low, close);
    EmaScales(k, PlusMoves(high, low), alpha);
    EmaScales(k, MinusMoves(high, low), alpha);
    EmaScales(k, LaterRanges(high, low, close), alpha);
    forall i | 0 <= i < |close| - 1
      ensures Dx(Scaled(k, high), Scaled(k, low), Scaled(k, close), period)[i] == Dx(high, low, close, period)[i]
    {
      DxPointScales(k, Ema(PlusMoves(high, low), alpha)[i], Ema(MinusMoves(high, low), alpha)[i],
                    Ema(LaterRanges(high, low, close), alpha)[i]);
    }
  }

  /** Scaling all prices leaves the ADX where it was. */
  lemma AdxScaleFree(k: real, high: seq<real>, low: seq<real>, close: seq<real>, period: nat)
    requires k > 0.0 && |high| == |low| == |close| && period >= 1
    ensures Adx(Scaled(k, high), Scaled(k, low), Scaled(k, close), period) == Adx(high, low, close, period)
  {
    hide Dx, Scaled;
    if |close| > 0 {
      DxScaleFree(k, high, low, close, period);
    }
  }
  // ----- what the indicators say -----

  /** The average starts at the first value and moves 2 / (span + 1) of the way to every value after it. */
  lemma {:induction false} EmaExactly(values: seq<real>, span: nat, i: nat)
    requires i < |values|
    ensures var ema := Ema(values, Alpha(span));
      ema[i] == if i == 0 then values[0]
                else ema[i - 1] + 2.0 / (span as real + 1.0) * (values[i] - ema[i - 1])
  {
    var n := |values| - 1;
    if i < n {
      EmaExactly(values[..n], span, i);
    } else if n > 0 {
      BlendMoves(Alpha(span), values[n], Ema(values[..n], Alpha(span))[n - 1]);
      hide Blend;
    }
  }

  lemma BlendMoves(alpha: real, x: real, previous: real)
    ensures Blend(alpha, x, previous) == previous + alpha * (x - previous)
  {
  }

  /** RSI is the share of the gains in all moves, in percent; without losses it is 100. */
  lemma RsiIsShare(gain: real, loss: real)
    requires gain >= 0.0 && loss >= 0.0
    ensures loss > 0.0 ==> RsiPoint(gain, loss) * (gain + loss) == 100.0 * gain
    ensures loss == 0.0 ==> RsiPoint(gain, loss) == 100.0
  {
    if loss > 0.0 {
      var strength, whole := gain / loss, gain + loss;
      QuotientSign(gain, loss);
      var part := 100.0 / (1.0 + strength);
      QuotientTimes(100.0, 1.0 + strength);
      assert (1.0 + strength) * loss == whole;
      assert part * whole == part * (1.0 + strength) * loss == 100.0 * loss;
    }
  }

  /** So it is above 50 exactly when the average gain is the larger, and a larger gain never lowers it. */
  lemma RsiDirection(gain: real, loss: real, more: real)
    requires gain >= 0.0 && loss > 0.0 && more >= gain
    ensures RsiPoint(gain, loss) > 50.0 <==> gain > loss
    ensures RsiPoint(gain, loss) <= RsiPoint(more, loss)
  {
    RsiIsShare(gain, loss);
    RsiIsShare(more, loss);
    RsiPointRange(gain, loss);
    hide RsiPoint;
    var r, q := RsiPoint(gain, loss), RsiPoint(more, loss);
    ShareAboveHalf(gain, loss, r);
    ShareGrows(gain, more, loss, r, q);
  }

  lemma ShareAboveHalf(gain: real, loss: real, r: real)
    requires gain >= 0.0 && loss > 0.0 && r * (gain + loss) == 100.0 * gain
    ensures r > 50.0 <==> gain > loss
  {
    var over := r - 50.0;
    assert over * (gain + loss) == 50.0 * (gain - loss);
    ProductSign(over, gain + loss);
  }

  lemma ShareGrows(gain: real, more: real, loss: real, r: real, q: real)
    requires gain >= 0.0 && more >= gain && loss > 0.0
    requires r * (gain + loss) == 100.0 * gain && q * (more + loss) == 100.0 * more && r <= 100.0
    ensures r <= q
  {
    ProductNonNegative(100.0 - r, more - gain);
    assert r * (more + loss) == r * (gain + loss) + r * (more - gain);
    ProductOrder(r, q, more + loss);
  }

  lemma {:induction false} EmaOfZeros(values: seq<real>, alpha: real)
    requires forall i | 0 <= i < |values| :: values[i] == 0.0
    ensures forall i | 0 <= i < |values| :: Ema(values, alpha)[i] == 0.0
  {
    if |values| > 1 {
      EmaOfZeros(values[..|values| - 1], alpha);
    }
  }

  lemma BlendPositive(alpha: real, x: real, previous: real)
    requires 0.0 < alpha <= 1.0 && x > 0.0 && previous >= 0.0
    ensures Blend(alpha, x, previous) > 0.0
  {
    ProductSign(x, alpha);
    ProductNonNegative(1.0 - alpha, previous);
  }

  /** A positive value lifts the average above zero. */
  lemma EmaPositive(values: seq<real>, period: nat, i: nat)
    requires period >= 1 && i < |values| && values[i] > 0.0
    requires forall k | 0 <= k < |values| :: values[k] >= 0.0
    ensures Ema(values, Alpha(period))[i] > 0.0
  {
    EmaExactly(values, period, i);
    if i > 0 {
      NonNegativeEma(values, period);
      AlphaIsFraction(period);
      var before := Ema(values, Alpha(period))[i - 1];
      BlendPositive(Alpha(period), values[i], before);
      BlendMoves(Alpha(period), values[i], before);
      hide Blend;
    }
  }

  /** Prices that never fall have an RSI of 100; prices that only fall have 0 from the second on. */
  lemma RsiOfTrend(close: seq<real>, period: nat)
    requires period >= 1
    ensures (forall i | 0 < i < |close| :: close[i - 1] <= close[i]) ==>
      forall i | 0 <= i < |close| :: Rsi(close, period)[i] == 100.0
    ensures (forall i | 0 < i < |close| :: close[i - 1] > close[i]) ==>
      forall i | 0 < i < |close| :: Rsi(close, period)[i] == 0.0
  {
    hide RsiPoint, Ema;
    if forall i | 0 < i < |close| :: close[i - 1] <= close[i] {
      EmaOfZeros(Losses(close), Alpha(period));
      forall i | 0 <= i < |close|
        ensures Rsi(close, period)[i] == 100.0
      {
        NonNegativeEma(Gains(close), period);
        RsiIsShare(Ema(Gains(close), Alpha(period))[i], 0.0);
      }
    }
    if forall i | 0 < i < |close| :: close[i - 1] > close[i] {
      EmaOfZeros(Gains(close), Alpha(period));
      forall i | 0 < i < |close|
        ensures Rsi(close, period)[i] == 0.0
      {
        EmaPositive(Losses(close), period, i);
        var loss := Ema(Losses(close), Alpha(period))[i];
        RsiIsShare(0.0, loss);
        ProductSign(RsiPoint(0.0, loss), loss);
      }
    }
  }

  /** The true range reaches across the bar and from the close before to either end of it, and no further. */
  lemma RangeExactly(high: real, low: real, previous: real)
    ensures var range := RangeOf(high, low, previous);
      && high - low <= range && high - previous <= range && previous - high <= range
      && low - previous <= range && previous - low <= range
      && range in {high - low, high - previous, previous - high, low - previous, previous - low}
  {
  }

  /** A bar's upward move counts when its high rose by more than its low fell, and the other way round. */
  lemma MovesExactly(high: seq<real>, low: seq<real>, i: nat)
    requires |high| == |low| && i + 1 < |high|
    ensures var up, down := high[i + 1] - high[i], low[i] - low[i + 1];
      && PlusMoves(high, low)[i] == (if up > down && up > 0.0 then up else 0.0)
      && MinusMoves(high, low)[i] == (if down > up && down > 0.0 then down else 0.0)
  {
  }

  /** The directional index is the difference of the two moves against their sum, in percent. */
  lemma DxIsShare(plus: real, minus: real, range: real)
    requires plus >= 0.0 && minus >= 0.0 && range > 0.0
    ensures DxPoint(plus, minus, range) * (plus + minus) == 100.0 * Abs(plus - minus)
    ensures plus + minus == 0.0 ==> DxPoint(plus, minus, range) == 0.0
  {
    var p, m := 100.0 * plus / range, 100.0 * minus / range;
    QuotientSign(100.0 * plus, range);
    QuotientSign(100.0 * minus, range);
    if p + m > 0.0 {
      var dx := 100.0 * Abs(p - m) / (p + m);
      QuotientTimes(100.0 * Abs(p - m), p + m);
      AbsTimes(p - m, range);
      AbsTimes(plus - minus, 100.0);
      assert (p - m) * range == (plus - minus) * 100.0;
      assert (p + m) * range == (plus + minus) * 100.0;
      assert dx * ((p + m) * range) == 100.0 * Abs(p - m) * range;
    }
  }

  lemma AbsTimes(x: real, k: real)
    requires k > 0.0
    ensures Abs(x) * k == Abs(x * k)
  {
    ProductSign(x, k);
    ProductSign(-x, k);
  }

  /**
   * Highs that keep rising over lows that do not fall: every directional index is 100, and so is the ADX,
   * as soon as there is a bar more than its period.
   */
  lemma AdxOfUptrend(high: seq<real>, low: seq<real>, close: seq<real>, period: nat)
    requires |high| == |low| == |close| && period >= 1
    requires forall i | 0 <= i < |high| - 1 :: high[i] < high[i + 1] && low[i] <= low[i + 1]
    requires forall i | 0 <= i < |high| :: close[i] <= high[i]
    ensures Adx(high, low, close, period) == if |close| > period then 100.0 else 0.0
  {
    hide Ema, DxPoint, RangeOf, Dx;
    if |close| > period {
      RisingAdx(high, low, close, period);
    }
  }

  lemma RisingAdx(high: seq<real>, low: seq<real>, close: seq<real>, period: nat)
    requires |high| == |low| == |close| >= period + 1 && period >= 1
    requires forall i | 0 <= i < |high| - 1 :: high[i] < high[i + 1] && low[i] <= low[i + 1]
    requires forall i | 0 <= i < |high| :: close[i] <= high[i]
    ensures Adx(high, low, close, period) == 100.0
  {
    var n := |close| - 1;
    var dx := Dx(high, low, close, period);
    hide Ema, DxPoint, RangeOf;
    EmaOfZeros(MinusMoves(high, low), Alpha(period));
    forall i | 0 <= i < n
      ensures dx[i] == 100.0
    {
      UptrendPoint(high, low, close, period, i);
    }
    AlphaIsFraction(period);
    EmaWithin(dx, Alpha(period), 100.0, 100.0);
  }

  lemma UptrendPoint(high: seq<real>, low: seq<real>, close: seq<real>, period: nat, i: nat)
    requires |high| == |low| == |close| && i + 1 < |close| && period >= 1
    requires forall k | 0 <= k < |high| - 1 :: high[k] < high[k + 1] && low[k] <= low[k + 1]
    requires forall k | 0 <= k < |high| :: close[k] <= high[k]
    requires Ema(MinusMoves(high, low), Alpha(period))[i] == 0.0
    ensures Dx(high, low, close, period)[i] == 100.0
  {
    hide Ema, DxPoint, RangeOf;
    forall k | 0 <= k < |close| - 1
      ensures LaterRanges(high, low, close)[k] > 0.0 && PlusMoves(high, low)[k] > 0.0
    {
      RangeExactly(high[k + 1], low[k + 1], close[k]);
      MovesExactly(high, low, k);
    }
    EmaPositive(PlusMoves(high, low), period, i);
    EmaPositive(LaterRanges(high, low, close), period, i);
    var plus := Ema(PlusMoves(high, low), Alpha(period))[i];
    var range := Ema(LaterRanges(high, low, close), Alpha(period))[i];
    DxIsShare(plus, 0.0, range);
    ProductOrder(DxPoint(plus, 0.0, range), 100.0, plus);
    ProductOrder(100.0, DxPoint(plus, 0.0, range), plus);
  }
}
