/**
 * The server side of phone execution: the `pending_executions` table and the
 * endpoints that move an order through its life. Orders are kept in creation
 * order, so an order's index stands for its id.
 */
module Orders {
  import opened Common
  import opened Ledger

  datatype Status = Pending | Claimed | Executed | Failed | Expired | Cancelled

  datatype Order = Order(
    key: Key, side: Side, quantity: real, targets: Targets, decision: Option<string>, expiresAt: int,
    status: Status, claimedAt: Option<int>, filledQuantity: Option<real>, averagePrice: Option<real>)

  datatype ClaimReply = ClaimOk | ClaimNotFound | AlreadyHandled(status: Status) | Gone

  datatype ReportReply = Recorded | ReportNotFound | ReportFailed

  /** A proposed order expires this many seconds after it is stored. */
  const EXPIRES_IN := 300

  /** Python truth of an optional number. */
  predicate Truthy(x: Option<real>) {
    x.Some? && x.value != 0.0
  }

  /** The reported numbers that make an executed order a fill. */
  predicate HasFill(o: Order) {
    Truthy(o.filledQuantity) && Truthy(o.averagePrice)
  }

  function Amount(x: Option<real>): real {
    if x.Some? then x.value else 0.0
  }

  /** The fill an executed order stands for. */
  function FillFrom(o: Order): Fill {
    Fill(o.key, o.side, Amount(o.filledQuantity), Amount(o.averagePrice), o.targets, o.decision)
  }

  /** The fills of the given orders, in the given order. */
  function FillsAt(orders: seq<Order>, ids: seq<nat>): (fills: seq<Fill>)
    requires forall i | 0 <= i < |ids| :: ids[i] < |orders|
    ensures |fills| == |ids|
    ensures forall i | 0 <= i < |ids| :: fills[i] == FillFrom(orders[ids[i]])
  {
    seq(|ids|, i requires 0 <= i < |ids| => FillFrom(orders[ids[i]]))
  }

  function Proposed(key: Key, side: Side, quantity: real, targets: Targets, decision: Option<string>, now: int): Order {
    Order(key, side, quantity, targets, decision, now + EXPIRES_IN, Pending, None, None, None)
  }

  /** In flight for the agent's duplicate guard. */
  predicate InFlight(o: Order, key: Key, side: Side, now: int) {
    o.key == key && o.side == side && (o.status.Claimed? || (o.status.Pending? && now < o.expiresAt))
  }

  predicate AnyInFlight(orders: seq<Order>, key: Key, side: Side, now: int) {
    exists i | 0 <= i < |orders| :: InFlight(orders[i], key, side, now)
  }

  /** The guard of the live-exit sweep: any pending sell, however old; claimed rows are not looked at. */
  predicate AnyPendingSell(orders: seq<Order>, key: Key) {
    exists i | 0 <= i < |orders| :: orders[i].key == key && orders[i].side.Sell? && orders[i].status.Pending?
  }

  function Claim(o: Order, now: int): Order {
    o.(status := Claimed, claimedAt := Some(now))
  }

  /** A claim succeeds on a pending order up to and including its expiry instant. */
  predicate Claimable(o: Order, now: int) {
    o.status.Pending? && now <= o.expiresAt
  }

  /** The table after a claim request. A refused claim raises, so its transaction is rolled back. */
  function AfterClaim(orders: seq<Order>, id: nat, now: int): seq<Order> {
    if id < |orders| && Claimable(orders[id], now) then orders[id := Claim(orders[id], now)] else orders
  }

  function Report(o: Order, status: Status, quantity: Option<real>, price: Option<real>): Order {
    o.(status := status, filledQuantity := quantity, averagePrice := price)
  }

  predicate AppliesFill(o: Order) {
    o.status.Executed? && HasFill(o)
  }

  /** The request raises: the position update divides by zero. */
  predicate ReportRaises(rows: seq<Position>, o: Order) {
    AppliesFill(o) && DividesByZero(rows, FillFrom(o))
  }

  predicate PendingOf(o: Order, account: string, side: Side) {
    o.key.account == account && o.status.Pending? && o.side == side
  }

  function CountPending(orders: seq<Order>, account: string, side: Side): nat {
    if orders == [] then 0
    else
      var last := |orders| - 1;
      CountPending(orders[..last], account, side) + (if PendingOf(orders[last], account, side) then 1 else 0)
  }

  function CancelBuy(o: Order, account: string): Order {
    if PendingOf(o, account, Buy) then o.(status := Cancelled) else o
  }

  function AfterKillSwitch(orders: seq<Order>, account: string): seq<Order> {
    seq(|orders|, i requires 0 <= i < |orders| => CancelBuy(orders[i], account))
  }

  /** The pending orders of an account on one side. */
  ghost function PendingIds(orders: seq<Order>, account: string, side: Side): set<nat> {
    set id: nat | id < |orders| && orders[id].key.account == account && orders[id].status.Pending?
                  && orders[id].side == side
  }

  /** Where two tables of the same length differ. */
  ghost function ChangedIds(before: seq<Order>, after: seq<Order>): set<nat>
    requires |before| == |after|
  {
    set id: nat | id < |before| && after[id] != before[id]
  }

  lemma PendingGrow(orders: seq<Order>, account: string, side: Side)
    requires orders != []
    ensures var last := |orders| - 1;
      var before := PendingIds(orders[..last], account, side);
      && last !in before
      && PendingIds(orders, account, side) == if PendingOf(orders[last], account, side) then before + {last} else before
  {
    var last := |orders| - 1;
    assert forall id: nat | id < last :: orders[..last][id] == orders[id];
  }

  lemma {:induction false} CountIsCardinality(orders: seq<Order>, account: string, side: Side)
    ensures CountPending(orders, account, side) == |PendingIds(orders, account, side)|
  {
    if orders == [] {
      assert PendingIds(orders, account, side) == {};
    } else {
      var last := |orders| - 1;
      CountIsCardinality(orders[..last], account, side);
      PendingGrow(orders, account, side);
      hide PendingIds, PendingOf;
    }
  }

  /**
   * The kill switch cancels every pending buy of the account and changes nothing else: no pending buy is left, each
   * one keeps its other fields, and the orders it counts are those that changed.
   */
  lemma KillSwitchExactly(orders: seq<Order>, account: string)
    ensures var after := AfterKillSwitch(orders, account);
      && |after| == |orders|
      && (forall id | 0 <= id < |orders| ::
            after[id] == if orders[id].key.account == account && orders[id].side.Buy? && orders[id].status.Pending?
                         then orders[id].(status := Cancelled) else orders[id])
      && PendingIds(after, account, Buy) == {}
      && PendingIds(after, account, Sell) == PendingIds(orders, account, Sell)
      && CountPending(orders, account, Buy) == |ChangedIds(orders, after)|
  {
    var after := AfterKillSwitch(orders, account);
    CountIsCardinality(orders, account, Buy);
    assert ChangedIds(orders, after) == PendingIds(orders, account, Buy);
  }

  predicate Stale(o: Order, account: string, now: int) {
    o.key.account == account && o.status.Pending? && o.expiresAt < now
  }

  function CountStale(orders: seq<Order>, account: string, now: int): nat {
    if orders == [] then 0
    else
      var last := |orders| - 1;
      CountStale(orders[..last], account, now) + (if Stale(orders[last], account, now) then 1 else 0)
  }

  function ExpireIfStale(o: Order, account: string, now: int): Order {
    if Stale(o, account, now) then o.(status := Expired) else o
  }

  function AfterSweep(orders: seq<Order>, account: string, now: int): seq<Order> {
    seq(|orders|, i requires 0 <= i < |orders| => ExpireIfStale(orders[i], account, now))
  }

  ghost function StaleIds(orders: seq<Order>, account: string, now: int): set<nat> {
    set id: nat | id < |orders| && orders[id].key.account == account && orders[id].status.Pending?
                  && orders[id].expiresAt < now
  }

  lemma StaleGrow(orders: seq<Order>, account: string, now: int)
    requires orders != []
    ensures var last := |orders| - 1;
      var before := StaleIds(orders[..last], account, now);
      && last !in before
      && StaleIds(orders, account, now) == if Stale(orders[last], account, now) then before + {last} else before
  {
    var last := |orders| - 1;
    assert forall id: nat | id < last :: orders[..last][id] == orders[id];
  }

  lemma {:induction false} StaleIsCardinality(orders: seq<Order>, account: string, now: int)
    ensures CountStale(orders, account, now) == |StaleIds(orders, account, now)|
  {
    if orders == [] {
      assert StaleIds(orders, account, now) == {};
    } else {
      var last := |orders| - 1;
      StaleIsCardinality(orders[..last], account, now);
      StaleGrow(orders, account, now);
      hide StaleIds, Stale;
    }
  }

  /** The sweep expires every overdue pending order of the account and changes nothing else. */
  lemma SweepExactly(orders: seq<Order>, account: string, now: int)
    ensures var after := AfterSweep(orders, account, now);
      && |after| == |orders|
      && (forall id | 0 <= id < |orders| ::
            var o := orders[id];
            after[id] == if o.key.account == account && o.status.Pending? && o.expiresAt < now
                         then o.(status := Expired) else o)
      && StaleIds(after, account, now) == {}
      && CountStale(orders, account, now) == |ChangedIds(orders, after)|
  {
    StaleIsCardinality(orders, account, now);
    assert ChangedIds(orders, AfterSweep(orders, account, now)) == StaleIds(orders, account, now);
  }

  predicate Offered(o: Order, account: string, now: int) {
    o.key.account == account && o.status.Pending? && now < o.expiresAt
  }

  /** The ids a poll returns, in table order. */
  function OfferedIds(orders: seq<Order>, account: string, now: int): (ids: seq<nat>)
    ensures forall id: nat :: id in ids <==> id < |orders| && Offered(orders[id], account, now)
    ensures forall i | 0 <= i < |ids| :: ids[i] < |orders|
    ensures forall i, j | 0 <= i < j < |ids| :: ids[i] < ids[j]
  {
    if orders == [] then []
    else
      var last := |orders| - 1;
      var ids := OfferedIds(orders[..last], account, now);
      assert forall id: nat | id < last :: orders[..last][id] == orders[id];
      if Offered(orders[last], account, now) then ids + [last] else ids
  }

  class ExecutionServer {
    var orders: seq<Order>
    const ledger: PositionTable

    constructor ()
      ensures orders == [] && fresh(ledger) && ledger.rows == []
    {
      orders := [];
      ledger := new PositionTable();
    }

    method GetPending(account: string, now: int) returns (ids: seq<nat>)
      ensures ids == OfferedIds(orders, account, now)
      ensures forall id: nat :: id in ids <==>
        (id < |orders| && orders[id].key.account == account && orders[id].status.Pending? && now < orders[id].expiresAt)
      ensures forall i, j | 0 <= i < j < |ids| :: ids[i] < ids[j]
    {
      ids := [];
      for i := 0 to |orders|
        invariant ids == OfferedIds(orders[..i], account, now)
      {
        assert orders[..i + 1][..i] == orders[..i];
        if Offered(orders[i], account, now) {
          ids := ids + [i];
        }
      }
      assert orders[..|orders|] == orders;
    }

    method ClaimExecution(id: nat, now: int) returns (reply: ClaimReply)
      modifies this
      ensures orders == AfterClaim(old(orders), id, now)
      ensures reply.ClaimOk? <==>
        (id < |old(orders)| && old(orders)[id].status.Pending? && now <= old(orders)[id].expiresAt)
      ensures orders == if reply.ClaimOk?
                        then old(orders)[id := old(orders)[id].(status := Claimed, claimedAt := Some(now))]
                        else old(orders)
      ensures reply.ClaimNotFound? <==> id >= |old(orders)|
      ensures reply.Gone? <==> id < |old(orders)| && old(orders)[id].status.Pending? && old(orders)[id].expiresAt < now
    {
      if id >= |orders| {
        return ClaimNotFound;
      }
      if !orders[id].status.Pending? {
        return AlreadyHandled(orders[id].status);
      }
      var committed := orders;
      if orders[id].expiresAt < now {
        orders := orders[id := orders[id].(status := Expired)];
        orders := committed;  // the 410 raised here makes the request roll back
        return Gone;
      }
      orders := orders[id := orders[id].(status := Claimed)];
      orders := orders[id := orders[id].(claimedAt := Some(now))];
      return ClaimOk;
    }

    /** The endpoint accepts any status from any caller; only phones restrain themselves. */
    method ReportExecution(id: nat, status: Status, quantity: Option<real>, price: Option<real>)
      returns (reply: ReportReply)
      modifies this, ledger
      ensures reply.ReportNotFound? <==> id >= |old(orders)|
      ensures id < |old(orders)| ==>
        var o := Report(old(orders)[id], status, quantity, price);
        if ReportRaises(old(ledger.rows), o)
        then reply == ReportFailed && orders == old(orders) && ledger.rows == old(ledger.rows)
        else && reply == Recorded
             && orders == old(orders)[id := o]
             && ledger.rows == if AppliesFill(o) then Applied(old(ledger.rows), FillFrom(o)) else old(ledger.rows)
      ensures id >= |old(orders)| ==> orders == old(orders) && ledger.rows == old(ledger.rows)
      ensures reply == Recorded ==>
        var o := old(orders)[id];
        orders == old(orders)[id := o.(status := status, filledQuantity := quantity, averagePrice := price)]
      ensures reply == Recorded && status.Executed? && Truthy(quantity) && Truthy(price) ==>
        var o := old(orders)[id];
        var fill := Fill(o.key, o.side, quantity.value, price.value, o.targets, o.decision);
        ledger.rows == Applied(old(ledger.rows), fill)
      ensures !(status.Executed? && Truthy(quantity) && Truthy(price)) ==>
        ledger.rows == old(ledger.rows) && (id < |old(orders)| ==> reply == Recorded)
    {
      if id >= |orders| {
        return ReportNotFound;
      }
      var committed := orders;
      orders := orders[id := orders[id].(status := status)];
      orders := orders[id := orders[id].(averagePrice := price)];
      orders := orders[id := orders[id].(filledQuantity := quantity)];
      if status.Executed? && Truthy(quantity) && Truthy(price) {
        var ok := ledger.ApplyFill(FillFrom(orders[id]));
        if !ok {
          orders := committed;
          return ReportFailed;
        }
      }
      return Recorded;
    }

    method ActivateKillSwitch(account: string) returns (cancelled: nat, keptSells: nat)
      modifies this
      ensures orders == AfterKillSwitch(old(orders), account)
      ensures |orders| == |old(orders)|
      ensures forall id | 0 <= id < |orders| ::
        var o := old(orders)[id];
        orders[id] == if o.key.account == account && o.side.Buy? && o.status.Pending?
                      then o.(status := Cancelled) else o
      ensures PendingIds(orders, account, Buy) == {}
      ensures cancelled == |ChangedIds(old(orders), orders)|
      ensures keptSells == |PendingIds(old(orders), account, Sell)|
    {
      hide PendingIds, ChangedIds;
      cancelled, keptSells := 0, 0;
      ghost var before := orders;
      KillSwitchExactly(before, account);
      var i := 0;
      while i < |orders|
        invariant 0 <= i <= |orders| == |before|
        invariant forall k | 0 <= k < i :: orders[k] == CancelBuy(before[k], account)
        invariant forall k | i <= k < |orders| :: orders[k] == before[k]
        invariant cancelled == CountPending(before[..i], account, Buy)
      {
        assert before[..i + 1][..i] == before[..i];
        var o := orders[i];
        if PendingOf(o, account, Buy) {
          orders := orders[i := o.(status := Cancelled)];
          cancelled := cancelled + 1;
        }
        i := i + 1;
      }
      assert before[..|orders|] == before;
      for j := 0 to |orders|
        invariant keptSells == CountPending(orders[..j], account, Sell)
      {
        assert orders[..j + 1][..j] == orders[..j];
        if PendingOf(orders[j], account, Sell) {
          keptSells := keptSells + 1;
        }
      }
      assert orders[..|orders|] == orders;
      assert orders == AfterKillSwitch(before, account);
      CountIsCardinality(orders, account, Sell);
    }

    method ExpireStalePending(account: string, now: int) returns (flipped: nat)
      modifies this
      ensures orders == AfterSweep(old(orders), account, now)
      ensures |orders| == |old(orders)|
      ensures forall id | 0 <= id < |orders| ::
        var o := old(orders)[id];
        orders[id] == if o.key.account == account && o.status.Pending? && o.expiresAt < now
                      then o.(status := Expired) else o
      ensures flipped == |ChangedIds(old(orders), orders)|
    {
      flipped := 0;
      ghost var before := orders;
      SweepExactly(before, account, now);
      var i := 0;
      while i < |orders|
        invariant 0 <= i <= |orders| == |before|
        invariant forall k | 0 <= k < i :: orders[k] == ExpireIfStale(before[k], account, now)
        invariant forall k | i <= k < |orders| :: orders[k] == before[k]
        invariant flipped == CountStale(before[..i], account, now)
      {
        assert before[..i + 1][..i] == before[..i];
        var o := orders[i];
        if Stale(o, account, now) {
          orders := orders[i := o.(status := Expired)];
          flipped := flipped + 1;
        }
        i := i + 1;
      }
      assert before[..|orders|] == before;
      assert orders == AfterSweep(before, account, now);
    }

    method HasPendingOrder(key: Key, side: Side, now: int) returns (found: bool)
      ensures found == AnyInFlight(orders, key, side, now)
      ensures found <==> exists i | 0 <= i < |orders| ::
        && orders[i].key == key && orders[i].side == side
        && (orders[i].status.Claimed? || (orders[i].status.Pending? && now < orders[i].expiresAt))
    {
      for i := 0 to |orders|
        invariant forall k | 0 <= k < i :: !InFlight(orders[k], key, side, now)
      {
        if InFlight(orders[i], key, side, now) {
          return true;
        }
      }
      return false;
    }

    method SavePendingExecution(key: Key, side: Side, quantity: real, targets: Targets, decision: Option<string>,
                                now: int)
      modifies this
      ensures orders == old(orders) + [Proposed(key, side, quantity, targets, decision, now)]
      ensures |orders| == |old(orders)| + 1
      ensures orders[|old(orders)|]
           == Order(key, side, quantity, targets, decision, now + 300, Pending, None, None, None)
    {
      orders := orders + [Proposed(key, side, quantity, targets, decision, now)];
    }
  }
}
