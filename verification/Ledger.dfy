/**
 * The live position ledger: executed fills are folded into one open row per
 * (account, symbol) with a weighted-average entry price.
 */
module Ledger {
  import opened Common

  datatype Key = Key(account: string, symbol: string)

  /** Stop and targets copied from the order that opened a position. */
  datatype Targets = Targets(stopLoss: Option<real>, takeProfit1: Option<real>, takeProfit2: Option<real>)

  /** What a reported execution contributes to the ledger. */
  datatype Fill = Fill(key: Key, side: Side, quantity: real, price: real, targets: Targets, decision: Option<string>)

  datatype Position = Position(
    key: Key, quantity: real, entryPrice: real, targets: Targets, decision: Option<string>,
    realizedPnl: real, open: bool)

  /** A position whose remaining quantity is at most this much is closed. */
  const CLOSE_DUST: real := 0.000000001

  /** The first open row of `key`. */
  function FindOpen(rows: seq<Position>, key: Key): (r: Option<nat>)
    ensures r.Some? ==> r.value < |rows| && rows[r.value].open && rows[r.value].key == key
    ensures r.None? ==> forall j | 0 <= j < |rows| :: !(rows[j].open && rows[j].key == key)
    ensures r.Some? ==> forall j | 0 <= j < r.value :: !(rows[j].open && rows[j].key == key)
  {
    if rows == [] then None
    else if rows[0].open && rows[0].key == key then Some(0)
    else match FindOpen(rows[1..], key)
      case None => None
      case Some(i) => Some(i + 1)
  }

  function Opened(f: Fill): Position {
    Position(f.key, f.quantity, f.price, f.targets, f.decision, 0.0, true)
  }

  /** A buy on an open row: average the entry price over both lots. */
  function Averaged(p: Position, f: Fill): Position
    requires p.quantity + f.quantity != 0.0
  {
    p.(quantity := p.quantity + f.quantity,
       entryPrice := (p.entryPrice * p.quantity + f.price * f.quantity) / (p.quantity + f.quantity))
  }

  /** A sell on an open row: realize the profit, shrink, close once only dust is left. */
  function Reduced(p: Position, f: Fill): Position {
    var left := p.quantity - f.quantity;
    var sold := p.(realizedPnl := p.realizedPnl + (f.price - p.entryPrice) * f.quantity, quantity := left);
    if left <= CLOSE_DUST then sold.(open := false, quantity := 0.0) else sold
  }

  /** The averaging division of an add-on buy would divide by zero. */
  predicate DividesByZero(rows: seq<Position>, f: Fill) {
    f.side.Buy? &&
    var i := FindOpen(rows, f.key);
    i.Some? && rows[i.value].quantity + f.quantity == 0.0
  }

  /** The rows after one fill; a fill that raises is rolled back and changes nothing. */
  function Applied(rows: seq<Position>, f: Fill): seq<Position> {
    var i := FindOpen(rows, f.key);
    if DividesByZero(rows, f) then rows
    else match (f.side, i)
      case (Buy, None) => rows + [Opened(f)]
      case (Buy, Some(n)) => rows[n := Averaged(rows[n], f)]
      case (Sell, None) => rows
      case (Sell, Some(n)) => rows[n := Reduced(rows[n], f)]
  }

  function AppliedAll(rows: seq<Position>, fills: seq<Fill>): seq<Position>
    decreases fills
  {
    if fills == [] then rows else AppliedAll(Applied(rows, fills[0]), fills[1..])
  }

  lemma {:induction false} AppliedAllSplits(rows: seq<Position>, a: seq<Fill>, b: seq<Fill>)
    ensures AppliedAll(rows, a + b) == AppliedAll(AppliedAll(rows, a), b)
    decreases a
  {
    if a == [] {
      assert a + b == b;
    } else {
      assert (a + b)[1..] == a[1..] + b;
      AppliedAllSplits(Applied(rows, a[0]), a[1..], b);
    }
  }

  /** Some fill of the replay divides by zero. */
  predicate RaisesIn(rows: seq<Position>, fills: seq<Fill>)
    decreases fills
  {
    fills != [] && (DividesByZero(rows, fills[0]) || RaisesIn(Applied(rows, fills[0]), fills[1..]))
  }

  lemma {:induction false} RaisesSplits(rows: seq<Position>, a: seq<Fill>, b: seq<Fill>)
    ensures RaisesIn(rows, a + b) <==> (RaisesIn(rows, a) || RaisesIn(AppliedAll(rows, a), b))
    decreases a
  {
    hide Applied, DividesByZero;
    if a == [] {
      assert a + b == b;
    } else {
      assert (a + b)[1..] == a[1..] + b;
      RaisesSplits(Applied(rows, a[0]), a[1..], b);
    }
  }

  /** A replay of one fill more. */
  lemma OneMoreFill(rows: seq<Position>, fills: seq<Fill>, f: Fill)
    ensures AppliedAll(rows, fills + [f]) == Applied(AppliedAll(rows, fills), f)
    ensures RaisesIn(rows, fills + [f]) <==> (RaisesIn(rows, fills) || DividesByZero(AppliedAll(rows, fills), f))
  {
    hide Applied, DividesByZero;
    AppliedAllSplits(rows, fills, [f]);
    RaisesSplits(rows, fills, [f]);
    assert [f][1..] == [];
  }

  /** The `positions` table, updated in place one reported fill at a time. */
  class PositionTable {
    var rows: seq<Position>

    constructor ()
      ensures rows == []
    {
      rows := [];
    }

    method ApplyFill(f: Fill) returns (ok: bool)
      modifies this
      ensures rows == Applied(old(rows), f)
      ensures ok == !DividesByZero(old(rows), f)
    {
      ok := true;
      var existing := FindOpen(rows, f.key);
      if f.side.Buy? {
        if existing.None? {
          rows := rows + [Opened(f)];
        } else {
          var p := rows[existing.value];
          var totalQty := p.quantity + f.quantity;
          if totalQty == 0.0 {
            return false;
          }
          p := p.(entryPrice := (p.entryPrice * p.quantity + f.price * f.quantity) / totalQty);
          p := p.(quantity := totalQty);
          assert p == Averaged(rows[existing.value], f);
          rows := rows[existing.value := p];
        }
      } else if existing.Some? {
        var p := rows[existing.value];
        var realized := (f.price - p.entryPrice) * f.quantity;
        p := p.(realizedPnl := p.realizedPnl + realized);
        p := p.(quantity := p.quantity - f.quantity);
        if p.quantity <= CLOSE_DUST {
          p := p.(open := false);
          p := p.(quantity := 0.0);
        }
        assert p == Reduced(rows[existing.value], f);
        rows := rows[existing.value := p];
      }
    }
  }

  // ----- at most one open row per (account, symbol) -----

  ghost predicate OneOpenPerKey(rows: seq<Position>) {
    forall i, j | 0 <= i < j < |rows| && rows[i].open && rows[j].open :: rows[i].key != rows[j].key
  }

  lemma {:induction false} OneOpenPerKeyKept(rows: seq<Position>, fills: seq<Fill>)
    requires OneOpenPerKey(rows)
    ensures OneOpenPerKey(AppliedAll(rows, fills))
    decreases fills
  {
    if fills != [] {
      var next := Applied(rows, fills[0]);
      assert OneOpenPerKey(next) by {
        forall i, j | 0 <= i < j < |next| && next[i].open && next[j].open
          ensures next[i].key != next[j].key
        {
          if j == |rows| {
            assert FindOpen(rows, fills[0].key).None?;
          }
        }
      }
      OneOpenPerKeyKept(next, fills[1..]);
    }
  }

  // ----- conservation of money -----

  /** Quantity times entry price, over all rows (closed rows hold nothing). */
  function BookCost(rows: seq<Position>): real {
    if rows == [] then 0.0 else CostOf(rows[0]) + BookCost(rows[1..])
  }

  function Realized(rows: seq<Position>): real {
    if rows == [] then 0.0 else rows[0].realizedPnl + Realized(rows[1..])
  }

  /** Money paid by a buy that went through. */
  function Paid(rows: seq<Position>, f: Fill): real {
    if f.side.Buy? && !DividesByZero(rows, f) then f.price * f.quantity else 0.0
  }

  /** Money received by a sell that matched an open row. */
  function Received(rows: seq<Position>, f: Fill): real {
    if f.side.Sell? && FindOpen(rows, f.key).Some? then f.price * f.quantity else 0.0
  }

  /** Quantity zeroed when a sell closes its row. */
  function Residual(rows: seq<Position>, f: Fill): real {
    var i := FindOpen(rows, f.key);
    if f.side.Sell? && i.Some? && rows[i.value].quantity - f.quantity <= CLOSE_DUST
    then rows[i.value].quantity - f.quantity else 0.0
  }

  /** Book value of that quantity. */
  function ResidualValue(rows: seq<Position>, f: Fill): real {
    var i := FindOpen(rows, f.key);
    if i.Some? then rows[i.value].entryPrice * Residual(rows, f) else 0.0
  }

  function TotalPaid(rows: seq<Position>, fills: seq<Fill>): real
    decreases fills
  {
    if fills == [] then 0.0 else Paid(rows, fills[0]) + TotalPaid(Applied(rows, fills[0]), fills[1..])
  }

  function TotalReceived(rows: seq<Position>, fills: seq<Fill>): real
    decreases fills
  {
    if fills == [] then 0.0 else Received(rows, fills[0]) + TotalReceived(Applied(rows, fills[0]), fills[1..])
  }

  function TotalResidualValue(rows: seq<Position>, fills: seq<Fill>): real
    decreases fills
  {
    if fills == [] then 0.0
    else ResidualValue(rows, fills[0]) + TotalResidualValue(Applied(rows, fills[0]), fills[1..])
  }

  lemma {:induction false} SumsAfterUpdate(rows: seq<Position>, n: nat, p: Position)
    requires n < |rows|
    ensures BookCost(rows[n := p])
         == BookCost(rows) - CostOf(rows[n]) + CostOf(p)
    ensures Realized(rows[n := p]) == Realized(rows) - rows[n].realizedPnl + p.realizedPnl
  {
    hide CostOf;
    if n == 0 {
      assert rows[n := p][1..] == rows[1..];
    } else {
      assert rows[n := p][1..] == rows[1..][n - 1 := p];
      SumsAfterUpdate(rows[1..], n - 1, p);
    }
  }

  lemma {:induction false} SumsAfterAppend(rows: seq<Position>, p: Position)
    ensures BookCost(rows + [p]) == BookCost(rows) + CostOf(p)
    ensures Realized(rows + [p]) == Realized(rows) + p.realizedPnl
  {
    if rows == [] {
      assert rows + [p] == [p];
    } else {
      assert (rows + [p])[1..] == rows[1..] + [p];
      SumsAfterAppend(rows[1..], p);
    }
  }

  function CostOf(p: Position): real {
    p.quantity * p.entryPrice
  }

  lemma AveragingKeepsCost(p: Position, f: Fill)
    requires p.quantity + f.quantity != 0.0
    ensures CostOf(Averaged(p, f)) == CostOf(p) + f.price * f.quantity
    ensures Averaged(p, f).realizedPnl == p.realizedPnl
  {
  }

  lemma ReducingRealizes(p: Position, f: Fill)
    ensures var left := p.quantity - f.quantity;
      && CostOf(Reduced(p, f)) - Reduced(p, f).realizedPnl
           == CostOf(p) - p.realizedPnl - f.price * f.quantity
              - (if left <= CLOSE_DUST then p.entryPrice * left else 0.0)
  {
  }

  lemma FillConserves(rows: seq<Position>, f: Fill)
    ensures Paid(rows, f) - Received(rows, f)
         == (BookCost(Applied(rows, f)) - BookCost(rows))
            - (Realized(Applied(rows, f)) - Realized(rows)) + ResidualValue(rows, f)
  {
    hide Averaged, Reduced, CostOf;
    var i := FindOpen(rows, f.key);
    if !DividesByZero(rows, f) {
      match (f.side, i)
      case (Buy, None) =>
        SumsAfterAppend(rows, Opened(f));
        OpeningCosts(f);
      case (Buy, Some(n)) =>
        AveragingKeepsCost(rows[n], f);
        SumsAfterUpdate(rows, n, Averaged(rows[n], f));
      case (Sell, None) =>
      case (Sell, Some(n)) =>
        ReducingRealizes(rows[n], f);
        SumsAfterUpdate(rows, n, Reduced(rows[n], f));
    }
  }

  lemma OpeningCosts(f: Fill)
    ensures CostOf(Opened(f)) == f.price * f.quantity
  {
  }

  /** Buys minus sells = change of open book cost - change of realized profit + book value dropped at closes. */
  lemma {:induction false} LedgerConserves(rows: seq<Position>, fills: seq<Fill>)
    ensures TotalPaid(rows, fills) - TotalReceived(rows, fills)
         == (BookCost(AppliedAll(rows, fills)) - BookCost(rows))
            - (Realized(AppliedAll(rows, fills)) - Realized(rows)) + TotalResidualValue(rows, fills)
    decreases fills
  {
    if fills != [] {
      FillConserves(rows, fills[0]);
      LedgerConserves(Applied(rows, fills[0]), fills[1..]);
    }
  }

  /** No sell takes more than its open row holds. */
  ghost predicate NoOversell(rows: seq<Position>, fills: seq<Fill>)
    decreases fills
  {
    fills != [] ==>
      && (fills[0].side.Sell? && FindOpen(rows, fills[0].key).Some? ==>
            fills[0].quantity <= rows[FindOpen(rows, fills[0].key).value].quantity)
      && NoOversell(Applied(rows, fills[0]), fills[1..])
  }

  /** Every quantity zeroed at a close is dust. */
  lemma {:induction false} ResidualIsDust(rows: seq<Position>, fills: seq<Fill>, n: nat)
    requires NoOversell(rows, fills) && n < |fills|
    ensures 0.0 <= Residual(AppliedAll(rows, fills[..n]), fills[n]) <= CLOSE_DUST
    decreases n
  {
    if n > 0 {
      ResidualIsDust(Applied(rows, fills[0]), fills[1..], n - 1);
      assert fills[..n][1..] == fills[1..][..n - 1];
    }
  }

  // ----- conservation of quantity -----

  /** What one fill makes of the quantity held of its key, `None` while no row is open. */
  function HeldAfter(held: Option<real>, f: Fill): Option<real> {
    match (f.side, held)
    case (Buy, None) => Some(f.quantity)
    case (Buy, Some(q)) => Some(q + f.quantity)
    case (Sell, None) => None
    case (Sell, Some(q)) => if q - f.quantity <= 0.000000001 then None else Some(q - f.quantity)
  }

  /** The quantity held of one key after the fills of all keys; a buy that would divide by zero is refused. */
  function HeldAfterAll(held: Option<real>, fills: seq<Fill>, key: Key): Option<real> {
    if fills == [] then held
    else
      var last := |fills| - 1;
      var before := HeldAfterAll(held, fills[..last], key);
      if fills[last].key != key || Refused(before, fills[last]) then before else HeldAfter(before, fills[last])
  }

  predicate Refused(held: Option<real>, f: Fill) {
    f.side.Buy? && held.Some? && held.value + f.quantity == 0.0
  }

  function Quantity(held: Option<real>): real {
    if held.Some? then held.value else 0.0
  }

  /** Quantity of a key bought, sold from an open row, and dropped at a close, over a sequence of fills. */
  datatype Flow = Flow(bought: real, sold: real, dropped: real)

  function FlowOf(held: Option<real>, fills: seq<Fill>, key: Key): Flow {
    if fills == [] then Flow(0.0, 0.0, 0.0)
    else
      var last := |fills| - 1;
      var f, flow, before := fills[last], FlowOf(held, fills[..last], key), HeldAfterAll(held, fills[..last], key);
      if f.key != key || Refused(before, f) then flow
      else if f.side.Buy? then flow.(bought := flow.bought + f.quantity)
      else if before.None? then flow
      else if before.value - f.quantity <= 0.000000001
      then flow.(sold := flow.sold + f.quantity, dropped := flow.dropped + before.value - f.quantity)
      else flow.(sold := flow.sold + f.quantity)
  }

  /** The open row of a key holds this much. */
  ghost predicate Holds(rows: seq<Position>, key: Key, held: Option<real>) {
    match held
    case None => forall i | 0 <= i < |rows| :: !(rows[i].open && rows[i].key == key)
    case Some(q) => exists i | 0 <= i < |rows| :: rows[i].open && rows[i].key == key && rows[i].quantity == q
  }

  /** Quantity over all open rows of a key. */
  function OpenQuantity(rows: seq<Position>, key: Key): real {
    if rows == [] then 0.0
    else OpenQuantity(rows[1..], key) + (if rows[0].open && rows[0].key == key then rows[0].quantity else 0.0)
  }

  lemma HoldsFound(rows: seq<Position>, key: Key, held: Option<real>)
    requires OneOpenPerKey(rows) && Holds(rows, key, held)
    ensures FindOpen(rows, key).Some? <==> held.Some?
    ensures held.Some? ==> rows[FindOpen(rows, key).value].quantity == held.value
  {
    if held.Some? {
      var i :| 0 <= i < |rows| && rows[i].open && rows[i].key == key && rows[i].quantity == held.value;
      var k := FindOpen(rows, key).value;
      assert i == k;
    }
  }

  /** One buy: a new row with the fill's own figures, or one more lot of the open row, whose other fields stay. */
  lemma BuyExactly(rows: seq<Position>, f: Fill)
    requires f.side.Buy?
    ensures var after, i := Applied(rows, f), FindOpen(rows, f.key);
      match i
      case None => after == rows + [Position(f.key, f.quantity, f.price, f.targets, f.decision, 0.0, true)]
      case Some(n) =>
        var p, total := rows[n], rows[n].quantity + f.quantity;
        if total == 0.0 then after == rows
        else
          && |after| == |rows| && after == rows[n := after[n]]
          && after[n] == p.(quantity := total, entryPrice := after[n].entryPrice)
          && after[n].entryPrice * total == p.entryPrice * p.quantity + f.price * f.quantity
          && (p.quantity > 0.0 && f.quantity > 0.0 ==>
                Min(p.entryPrice, f.price) <= after[n].entryPrice <= Max(p.entryPrice, f.price))
  {
    var i := FindOpen(rows, f.key);
    if i.Some? && rows[i.value].quantity + f.quantity != 0.0 {
      AverageBetween(rows[i.value], f);
    }
  }

  /** An average of two lots lies between their prices. */
  lemma AverageBetween(p: Position, f: Fill)
    requires p.quantity + f.quantity != 0.0
    ensures var entry := Averaged(p, f).entryPrice;
      && entry * (p.quantity + f.quantity) == p.entryPrice * p.quantity + f.price * f.quantity
      && (p.quantity > 0.0 && f.quantity > 0.0 ==> Min(p.entryPrice, f.price) <= entry <= Max(p.entryPrice, f.price))
  {
    var total, cost := p.quantity + f.quantity, p.entryPrice * p.quantity + f.price * f.quantity;
    QuotientTimes(cost, total);
    if p.quantity > 0.0 && f.quantity > 0.0 {
      var low, high := Min(p.entryPrice, f.price), Max(p.entryPrice, f.price);
      ProductOrder(low, p.entryPrice, p.quantity);
      ProductOrder(low, f.price, f.quantity);
      ProductOrder(p.entryPrice, high, p.quantity);
      ProductOrder(f.price, high, f.quantity);
      assert low * total == low * p.quantity + low * f.quantity;
      assert high * total == high * p.quantity + high * f.quantity;
      QuotientOrder(cost, total, low);
      QuotientOrder(cost, total, high);
    }
  }

  /** One sell: nothing without an open row; otherwise that row shrinks and realizes, and is closed at zero by dust. */
  lemma SellExactly(rows: seq<Position>, f: Fill)
    requires f.side.Sell?
    ensures var after, i := Applied(rows, f), FindOpen(rows, f.key);
      match i
      case None => after == rows
      case Some(n) =>
        && after == rows[n := after[n]]
        && var p, left := rows[n], rows[n].quantity - f.quantity;
           var sold := p.(realizedPnl := p.realizedPnl + (f.price - p.entryPrice) * f.quantity);
           after[n] == if left <= 0.000000001 then sold.(quantity := 0.0, open := false) else sold.(quantity := left)
  {
    var i := FindOpen(rows, f.key);
    if i.Some? {
      assert Applied(rows, f) == rows[i.value := Reduced(rows[i.value], f)];
    }
  }

  lemma HoldsOnly(rows: seq<Position>, key: Key, n: nat)
    requires OneOpenPerKey(rows) && n < |rows| && rows[n].open && rows[n].key == key
    ensures FindOpen(rows, key) == Some(n)
    ensures forall i | 0 <= i < |rows| && rows[i].open && rows[i].key == key :: i == n
  {
  }

  /** One fill of the key moves what is held as it should; a refused one and those of other keys do not. */
  lemma HoldsStep(rows: seq<Position>, f: Fill, key: Key, held: Option<real>)
    requires OneOpenPerKey(rows) && Holds(rows, key, held)
    ensures Holds(Applied(rows, f), key, if f.key != key || Refused(held, f) then held else HeldAfter(held, f))
  {
    HoldsFound(rows, key, held);
    var after, i := Applied(rows, f), FindOpen(rows, f.key);
    if f.side.Buy? {
      BuyExactly(rows, f);
    } else {
      SellExactly(rows, f);
    }
    hide Applied, Averaged, Reduced, DividesByZero;
    if f.key != key && held.Some? {
      var k := FindOpen(rows, key).value;
      assert after[k] == rows[k];
    } else if f.key == key && i.Some? {
      HoldsOnly(rows, key, i.value);
    } else if f.key == key && f.side.Buy? {
      assert after[|rows|].open;
    }
  }

  /** Over every sequence of fills the open row of each key holds what the quantities of its fills say. */
  lemma {:induction false} HoldsAlways(rows: seq<Position>, fills: seq<Fill>, key: Key, held: Option<real>)
    requires OneOpenPerKey(rows) && Holds(rows, key, held)
    ensures Holds(AppliedAll(rows, fills), key, HeldAfterAll(held, fills, key))
  {
    hide Applied, Holds, OneOpenPerKey;
    if fills != [] {
      var last := |fills| - 1;
      HoldsAlways(rows, fills[..last], key, held);
      OneOpenPerKeyKept(rows, fills[..last]);
      OneMoreFill(rows, fills[..last], fills[last]);
      assert fills[..last] + [fills[last]] == fills;
      var before := AppliedAll(rows, fills[..last]);
      assert AppliedAll(rows, fills) == Applied(before, fills[last]);
      HoldsStep(before, fills[last], key, HeldAfterAll(held, fills[..last], key));
    }
  }

  lemma {:induction false} FlowBalances(held: Option<real>, fills: seq<Fill>, key: Key)
    ensures var flow := FlowOf(held, fills, key);
      Quantity(HeldAfterAll(held, fills, key)) == Quantity(held) + flow.bought - flow.sold - flow.dropped
  {
    if fills != [] {
      FlowBalances(held, fills[..|fills| - 1], key);
    }
  }

  lemma {:induction false} OpenQuantityIs(rows: seq<Position>, key: Key, held: Option<real>)
    requires OneOpenPerKey(rows) && Holds(rows, key, held)
    ensures OpenQuantity(rows, key) == Quantity(held)
  {
    if rows != [] {
      var rest := rows[1..];
      assert forall i | 0 <= i < |rest| :: rest[i] == rows[i + 1];
      if rows[0].open && rows[0].key == key {
        HoldsOnly(rows, key, 0);
        assert Holds(rest, key, None);
        OpenQuantityIs(rest, key, None);
      } else {
        if held.Some? {
          var i :| 0 <= i < |rows| && rows[i].open && rows[i].key == key && rows[i].quantity == held.value;
          assert rest[i - 1] == rows[i];
        }
        OpenQuantityIs(rest, key, held);
      }
    }
  }

  /**
   * Key by key and over every sequence of fills: the open quantity afterwards is the one before plus what was bought,
   * minus what was sold from the open row, minus what was dropped when it closed.
   */
  lemma QuantityConserved(rows: seq<Position>, fills: seq<Fill>, key: Key, held: Option<real>)
    requires OneOpenPerKey(rows) && Holds(rows, key, held)
    ensures var flow := FlowOf(held, fills, key);
      OpenQuantity(AppliedAll(rows, fills), key)
      == OpenQuantity(rows, key) + flow.bought - flow.sold - flow.dropped
  {
    hide Holds, OneOpenPerKey, OpenQuantity;
    HoldsAlways(rows, fills, key, held);
    OneOpenPerKeyKept(rows, fills);
    OpenQuantityIs(rows, key, held);
    OpenQuantityIs(AppliedAll(rows, fills), key, HeldAfterAll(held, fills, key));
    FlowBalances(held, fills, key);
  }

  /** Every open row of the key holds something, at an entry price within the bounds. */
  ghost predicate PricedWithin(rows: seq<Position>, key: Key, low: real, high: real) {
    forall i | 0 <= i < |rows| && rows[i].open && rows[i].key == key ::
      rows[i].quantity > 0.0 && low <= rows[i].entryPrice <= high
  }

  lemma PricedStep(rows: seq<Position>, f: Fill, key: Key, low: real, high: real)
    requires PricedWithin(rows, key, low, high)
    requires f.key == key && f.side.Buy? ==> f.quantity > 0.0 && low <= f.price <= high
    ensures PricedWithin(Applied(rows, f), key, low, high)
  {
    if f.side.Buy? {
      BuyExactly(rows, f);
    } else {
      SellExactly(rows, f);
    }
    hide Applied, Averaged, Reduced, DividesByZero;
    var after, i := Applied(rows, f), FindOpen(rows, f.key);
    forall k | 0 <= k < |after| && after[k].open && after[k].key == key
      ensures after[k].quantity > 0.0 && low <= after[k].entryPrice <= high
    {
      assert k < |rows| && (i.None? || k != i.value) ==> after[k] == rows[k];
    }
  }

  /** An entry price never leaves the range of the prices that were paid. */
  lemma {:induction false} EntryPriceWithin(rows: seq<Position>, fills: seq<Fill>, key: Key, low: real, high: real)
    requires PricedWithin(rows, key, low, high)
    requires forall k | 0 <= k < |fills| && fills[k].key == key && fills[k].side.Buy? ::
      fills[k].quantity > 0.0 && low <= fills[k].price <= high
    ensures PricedWithin(AppliedAll(rows, fills), key, low, high)
    decreases fills
  {
    hide Applied, PricedWithin;
    if fills != [] {
      PricedStep(rows, fills[0], key, low, high);
      EntryPriceWithin(Applied(rows, fills[0]), fills[1..], key, low, high);
    }
  }

  // ----- fills on different keys are independent -----

  function RowsOf(rows: seq<Position>, key: Key): seq<Position> {
    if rows == [] then []
    else if rows[0].key == key then [rows[0]] + RowsOf(rows[1..], key)
    else RowsOf(rows[1..], key)
  }

  function FillsOf(fills: seq<Fill>, key: Key): seq<Fill> {
    if fills == [] then []
    else if fills[0].key == key then [fills[0]] + FillsOf(fills[1..], key)
    else FillsOf(fills[1..], key)
  }

  lemma {:induction false} RowsOfAppend(rows: seq<Position>, more: seq<Position>, key: Key)
    ensures RowsOf(rows + more, key) == RowsOf(rows, key) + RowsOf(more, key)
  {
    if rows == [] {
      assert rows + more == more;
    } else {
      assert (rows + more)[1..] == rows[1..] + more;
      RowsOfAppend(rows[1..], more, key);
    }
  }

  lemma {:induction false} RowsOfOtherUpdate(rows: seq<Position>, n: nat, p: Position, key: Key)
    requires n < |rows| && rows[n].key == p.key != key
    ensures RowsOf(rows[n := p], key) == RowsOf(rows, key)
  {
    if n == 0 {
      assert rows[n := p][1..] == rows[1..];
    } else {
      assert rows[n := p][1..] == rows[1..][n - 1 := p];
      RowsOfOtherUpdate(rows[1..], n - 1, p, key);
    }
  }

  /** The open row of `key` is found at the same place in the rows of `key` alone. */
  lemma {:induction false} FindOpenProjects(rows: seq<Position>, p: Position)
    ensures var i := FindOpen(rows, p.key);
            var k := FindOpen(RowsOf(rows, p.key), p.key);
            && (i.None? <==> k.None?)
            && (i.Some? ==>
                  && RowsOf(rows, p.key)[k.value] == rows[i.value]
                  && RowsOf(rows[i.value := p], p.key) == RowsOf(rows, p.key)[k.value := p])
  {
    if rows != [] {
      FindOpenProjects(rows[1..], p);
      var mine := RowsOf(rows, p.key);
      var tail := RowsOf(rows[1..], p.key);
      var i := FindOpen(rows, p.key);
      if i.Some? && i.value == 0 {
        assert rows[0 := p][1..] == rows[1..];
      } else if i.Some? {
        assert rows[i.value := p][1..] == rows[1..][i.value - 1 := p];
      }
      if rows[0].key == p.key {
        assert mine[1..] == tail;
      }
    }
  }

  /** One fill changes the rows of its own key, and changes them as if no others existed. */
  lemma AppliedProjects(rows: seq<Position>, f: Fill, key: Key)
    ensures RowsOf(Applied(rows, f), key)
         == if f.key == key then Applied(RowsOf(rows, key), f) else RowsOf(rows, key)
  {
    var i := FindOpen(rows, f.key);
    if f.key != key {
      match (f.side, i)
      case (Buy, None) => RowsOfAppend(rows, [Opened(f)], key);
      case (Buy, Some(n)) =>
        if !DividesByZero(rows, f) { RowsOfOtherUpdate(rows, n, Averaged(rows[n], f), key); }
      case (Sell, None) =>
      case (Sell, Some(n)) => RowsOfOtherUpdate(rows, n, Reduced(rows[n], f), key);
    } else {
      match (f.side, i)
      case (Buy, None) =>
        FindOpenProjects(rows, Opened(f));
        RowsOfAppend(rows, [Opened(f)], key);
      case (Buy, Some(n)) =>
        FindOpenProjects(rows, rows[n]);
        if !DividesByZero(rows, f) { FindOpenProjects(rows, Averaged(rows[n], f)); }
      case (Sell, None) => FindOpenProjects(rows, Opened(f));
      case (Sell, Some(n)) => FindOpenProjects(rows, Reduced(rows[n], f));
    }
  }

  /** The history of one key is the replay of that key's fills alone. */
  lemma {:induction false} ReplayProjects(rows: seq<Position>, fills: seq<Fill>, key: Key)
    ensures RowsOf(AppliedAll(rows, fills), key) == AppliedAll(RowsOf(rows, key), FillsOf(fills, key))
    decreases fills
  {
    if fills != [] {
      AppliedProjects(rows, fills[0], key);
      ReplayProjects(Applied(rows, fills[0]), fills[1..], key);
      if fills[0].key == key {
        assert FillsOf(fills, key)[0] == fills[0];
        assert FillsOf(fills, key)[1..] == FillsOf(fills[1..], key);
      }
    }
  }

  lemma DividesProjects(rows: seq<Position>, f: Fill)
    ensures DividesByZero(rows, f) <==> DividesByZero(RowsOf(rows, f.key), f)
  {
    var i := FindOpen(rows, f.key);
    FindOpenProjects(rows, if i.Some? then rows[i.value] else Opened(f));
  }

  lemma {:induction false} RaisesProjects(rows: seq<Position>, fills: seq<Fill>, key: Key)
    ensures RaisesIn(RowsOf(rows, key), FillsOf(fills, key)) ==> RaisesIn(rows, fills)
    decreases fills
  {
    hide Applied, DividesByZero;
    if fills != [] {
      AppliedProjects(rows, fills[0], key);
      RaisesProjects(Applied(rows, fills[0]), fills[1..], key);
      if fills[0].key == key {
        DividesProjects(rows, fills[0]);
        assert FillsOf(fills, key)[0] == fills[0];
        assert FillsOf(fills, key)[1..] == FillsOf(fills[1..], key);
      }
    }
  }

  /** A replay that divides by zero does so among the fills of one key. */
  lemma {:induction false} RaisesOnKey(rows: seq<Position>, fills: seq<Fill>) returns (key: Key)
    requires RaisesIn(rows, fills)
    ensures RaisesIn(RowsOf(rows, key), FillsOf(fills, key))
    ensures exists i | 0 <= i < |fills| :: fills[i].key == key
    decreases fills
  {
    hide Applied, DividesByZero;
    var f := fills[0];
    if DividesByZero(rows, f) {
      key := f.key;
      DividesProjects(rows, f);
      assert FillsOf(fills, key)[0] == f;
    } else {
      key := RaisesOnKey(Applied(rows, f), fills[1..]);
      var i :| 0 <= i < |fills[1..]| && fills[1..][i].key == key;
      assert fills[i + 1].key == key;
      AppliedProjects(rows, f, key);
      if f.key == key {
        assert FillsOf(fills, key)[0] == f;
        assert FillsOf(fills, key)[1..] == FillsOf(fills[1..], key);
      }
    }
  }

  /** Two histories with the same per-key order leave the same rows for every key. */
  lemma PerKeyOrderDecides(rows: seq<Position>, a: seq<Fill>, b: seq<Fill>)
    requires forall key :: FillsOf(a, key) == FillsOf(b, key)
    ensures forall key :: RowsOf(AppliedAll(rows, a), key) == RowsOf(AppliedAll(rows, b), key)
  {
    forall key
      ensures RowsOf(AppliedAll(rows, a), key) == RowsOf(AppliedAll(rows, b), key)
    {
      ReplayProjects(rows, a, key);
      ReplayProjects(rows, b, key);
      assert FillsOf(a, key) == FillsOf(b, key);
    }
  }

  /** In particular, adjacent fills on different keys commute. */
  lemma FillsCommute(rows: seq<Position>, f: Fill, g: Fill)
    requires f.key != g.key
    ensures forall key :: RowsOf(Applied(Applied(rows, f), g), key) == RowsOf(Applied(Applied(rows, g), f), key)
  {
    forall key
      ensures RowsOf(Applied(Applied(rows, f), g), key) == RowsOf(Applied(Applied(rows, g), f), key)
    {
      AppliedProjects(rows, f, key);
      AppliedProjects(Applied(rows, f), g, key);
      AppliedProjects(rows, g, key);
      AppliedProjects(Applied(rows, g), f, key);
    }
  }
}
