/**
 * The phone's last check before an on-chain swap: the quote must be close to
 * the market price, and the slippage limit sent to the router is computed in
 * raw integer token amounts.
 */
module SwapGuard {
  import opened Common

  const MAX_DEVIATION: real := 0.05
  const SLIPPAGE_BPS := 100

  /** A human amount in the token's smallest units, cut off. */
  function ToRaw(amount: real, decimals: nat): nat
    requires amount >= 0.0
  {
    var exact := amount * (Pow10(decimals) as real);
    if exact >= 0.0 then exact.Floor else 0
  }

  function FromRaw(raw: nat, decimals: nat): real {
    raw as real / Pow10(decimals) as real
  }

  function Adjustment(amount: nat): nat {
    amount * SLIPPAGE_BPS / 10000
  }

  /** No market price refuses a buy but never a sell; otherwise only a price more than 5% worse refuses. */
  predicate Refuses(side: Side, quotedPrice: real, marketPrice: Option<real>) {
    if marketPrice.None? || marketPrice.value <= 0.0 then side.Buy?
    else if side.Buy? then quotedPrice > marketPrice.value * (1.0 + MAX_DEVIATION)
    else quotedPrice < marketPrice.value * (1.0 - MAX_DEVIATION)
  }

  datatype Plan =
    | InsufficientBalance | NoQuote | PriceRefused
    | ReadyToSwap(amountIn: nat, amountOut: nat, limit: nat)

  /** Exact input: sell all of `quantity`, accept at least `limit`. */
  function PlanSell(quantity: real, baseDecimals: nat, quoteDecimals: nat, balance: nat,
                    quoted: Option<nat>, marketPrice: Option<real>): Plan
    requires quantity > 0.0
  {
    var amountIn := ToRaw(quantity, baseDecimals);
    if balance < amountIn then InsufficientBalance
    else if quoted.None? then NoQuote
    else if Refuses(Sell, FromRaw(quoted.value, quoteDecimals) / quantity, marketPrice) then PriceRefused
    else ReadyToSwap(amountIn, quoted.value, quoted.value - Adjustment(quoted.value))
  }

  /** Exact output: receive `quantity`, spend at most `limit`. */
  function PlanBuy(quantity: real, baseDecimals: nat, quoteDecimals: nat, balance: nat,
                   quoted: Option<nat>, marketPrice: Option<real>): Plan
    requires quantity > 0.0
  {
    var amountOut := ToRaw(quantity, baseDecimals);
    if quoted.None? then NoQuote
    else if Refuses(Buy, FromRaw(quoted.value, quoteDecimals) / quantity, marketPrice) then PriceRefused
    else if balance < quoted.value + Adjustment(quoted.value) then InsufficientBalance
    else ReadyToSwap(quoted.value, amountOut, quoted.value + Adjustment(quoted.value))
  }

  lemma AdjustmentIsOnePercent(amount: nat)
    ensures 100 * Adjustment(amount) <= amount < 100 * Adjustment(amount) + 100
  {
  }

  lemma FromRawOrder(x: nat, y: nat, decimals: nat, factor: real)
    requires x as real <= factor * (y as real)
    ensures FromRaw(x, decimals) <= factor * FromRaw(y, decimals)
  {
  }

  lemma FromRawOrderUp(x: nat, y: nat, decimals: nat, factor: real)
    requires x as real >= factor * (y as real)
    ensures FromRaw(x, decimals) >= factor * FromRaw(y, decimals)
  {
  }

  lemma ToRawCutsOff(quantity: real, decimals: nat)
    requires quantity >= 0.0
    ensures 0.0 <= FromRaw(ToRaw(quantity, decimals), decimals) <= quantity
  {
    var p := Pow10(decimals) as real;
    var raw := ToRaw(quantity, decimals);
    ProductNonNegative(quantity, p);
    assert raw as real <= quantity * p;
    QuotientOrder(raw as real, p, quantity);
    QuotientOrder(raw as real, p, 0.0);
  }

  /** Whatever the pool does within the limit, a guarded buy spends at most 1.05 x 1.01 times market value. */
  lemma BuyNeverOverpays(quantity: real, baseDecimals: nat, quoteDecimals: nat, balance: nat,
                         quoted: Option<nat>, m: real, spent: nat)
    requires quantity > 0.0 && m > 0.0
    requires var plan := PlanBuy(quantity, baseDecimals, quoteDecimals, balance, quoted, Some(m));
      plan.ReadyToSwap? && spent <= plan.limit
    ensures FromRaw(spent, quoteDecimals) <= 1.05 * 1.01 * (m * quantity)
    ensures spent <= balance
  {
    hide FromRaw, Adjustment, ToRaw;
    var q := quoted.value;
    var value := FromRaw(q, quoteDecimals);
    QuotientOrder(value, quantity, m * (1.0 + MAX_DEVIATION));
    assert value <= 1.05 * (m * quantity) by {
      assert m * (1.0 + MAX_DEVIATION) * quantity == 1.05 * (m * quantity);
    }
    AdjustmentIsOnePercent(q);
    assert spent as real <= 1.01 * (q as real);
    FromRawOrder(spent, q, quoteDecimals, 1.01);
  }

  /** A guarded sell with a known market price brings at least 0.95 x 0.99 of it per unit actually sold. */
  lemma SellNeverUnderpaid(quantity: real, baseDecimals: nat, quoteDecimals: nat, balance: nat,
                           quoted: Option<nat>, m: real, received: nat)
    requires quantity > 0.0 && m > 0.0
    requires var plan := PlanSell(quantity, baseDecimals, quoteDecimals, balance, quoted, Some(m));
      plan.ReadyToSwap? && received >= plan.limit
    ensures var plan := PlanSell(quantity, baseDecimals, quoteDecimals, balance, quoted, Some(m));
      var sold := FromRaw(plan.amountIn, baseDecimals);
      && 0.0 <= sold <= quantity
      && FromRaw(received, quoteDecimals) >= 0.95 * 0.99 * (m * quantity)
      && FromRaw(received, quoteDecimals) >= 0.95 * 0.99 * (m * sold)
      && plan.amountIn <= balance
  {
    hide FromRaw, Adjustment, ToRaw;
    var q := quoted.value;
    var value := FromRaw(q, quoteDecimals);
    QuotientOrder(value, quantity, m * (1.0 - MAX_DEVIATION));
    assert value >= 0.95 * (m * quantity) by {
      assert m * (1.0 - MAX_DEVIATION) * quantity == 0.95 * (m * quantity);
    }
    AdjustmentIsOnePercent(q);
    assert received as real >= 0.99 * (q as real);
    FromRawOrderUp(received, q, quoteDecimals, 0.99);
    ToRawCutsOff(quantity, baseDecimals);
    ProductOrder(FromRaw(ToRaw(quantity, baseDecimals), baseDecimals), quantity, m);
  }

  // ----- when a swap is sent, exactly -----

  /** The raw amount is the exact one cut off, by less than one smallest unit. */
  lemma ToRawExactly(amount: real, decimals: nat)
    requires amount >= 0.0
    ensures var raw, unit := ToRaw(amount, decimals), Pow10(decimals) as real;
      raw as real <= amount * unit < raw as real + 1.0
  {
    ProductNonNegative(amount, Pow10(decimals) as real);
  }

  /** A buy needs a market price and at most 5% above it; a sell is refused only at more than 5% below a known one. */
  lemma RefusesExactly(quotedPrice: real, marketPrice: Option<real>)
    ensures !Refuses(Buy, quotedPrice, marketPrice) <==>
      (marketPrice.Some? && marketPrice.value > 0.0 && quotedPrice <= 1.05 * marketPrice.value)
    ensures !Refuses(Sell, quotedPrice, marketPrice) <==>
      (marketPrice.Some? && marketPrice.value > 0.0 ==> quotedPrice >= 0.95 * marketPrice.value)
  {
  }

  /**
   * A sell is sent exactly when the wallet holds the raw amount, the pool quotes, and the price per unit asked for is
   * not refused; it then puts in that amount and asks for the quote less one percent of it, cut off.
   */
  lemma SellExactly(quantity: real, baseDecimals: nat, quoteDecimals: nat, balance: nat,
                    quoted: Option<nat>, marketPrice: Option<real>)
    requires quantity > 0.0
    ensures var plan := PlanSell(quantity, baseDecimals, quoteDecimals, balance, quoted, marketPrice);
      && (plan.ReadyToSwap? <==>
            && ToRaw(quantity, baseDecimals) <= balance && quoted.Some?
            && !Refuses(Sell, quoted.value as real / Pow10(quoteDecimals) as real / quantity, marketPrice))
      && (plan.ReadyToSwap? ==>
            && plan.amountIn == ToRaw(quantity, baseDecimals) && plan.amountOut == quoted.value
            && plan.limit <= quoted.value
            && 100 * (quoted.value - plan.limit) <= quoted.value < 100 * (quoted.value - plan.limit) + 100)
  {
    hide ToRaw, Refuses;
    if quoted.Some? {
      AdjustmentIsOnePercent(quoted.value);
    }
  }

  /** A buy likewise, by the wallet's quote currency; it spends at most the quote and one percent of it, cut off. */
  lemma BuyExactly(quantity: real, baseDecimals: nat, quoteDecimals: nat, balance: nat,
                   quoted: Option<nat>, marketPrice: Option<real>)
    requires quantity > 0.0
    ensures var plan := PlanBuy(quantity, baseDecimals, quoteDecimals, balance, quoted, marketPrice);
      && (plan.ReadyToSwap? <==>
            && quoted.Some? && quoted.value + quoted.value / 100 <= balance
            && !Refuses(Buy, quoted.value as real / Pow10(quoteDecimals) as real / quantity, marketPrice))
      && (plan.ReadyToSwap? ==>
            && plan.amountOut == ToRaw(quantity, baseDecimals) && plan.amountIn == quoted.value
            && plan.limit == quoted.value + quoted.value / 100)
  {
    hide ToRaw, Refuses;
    if quoted.Some? {
      AdjustmentIsOnePercent(quoted.value);
      assert Adjustment(quoted.value) == quoted.value / 100;
    }
  }

  // ----- what the phone reports -----

  /** Average price of a swap in quote currency per token; none when the token amount is zero. */
  function EffectivePrice(side: Side, amountIn: real, amountOut: real): Option<real> {
    if side.Sell? then (if amountIn == 0.0 then None else Some(amountOut / amountIn))
    else if amountOut == 0.0 then None else Some(amountIn / amountOut)
  }

  function FilledQuantity(side: Side, amountIn: real, amountOut: real): real {
    if side.Sell? then amountIn else amountOut
  }

  /** For either side, reported price times reported quantity is the quote-currency leg of the swap. */
  lemma ReportedValue(side: Side, amountIn: real, amountOut: real)
    requires EffectivePrice(side, amountIn, amountOut).Some?
    ensures EffectivePrice(side, amountIn, amountOut).value * FilledQuantity(side, amountIn, amountOut)
         == if side.Sell? then amountOut else amountIn
  {
  }

  /** A price is missing only where the token leg is zero; the quantity reported is that leg. */
  lemma ReportedLeg(side: Side, amountIn: real, amountOut: real)
    ensures FilledQuantity(side, amountIn, amountOut) == match side case Sell => amountIn case Buy => amountOut
    ensures EffectivePrice(side, amountIn, amountOut).None? <==> FilledQuantity(side, amountIn, amountOut) == 0.0
  {
  }
}
