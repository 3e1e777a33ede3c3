/**
 * The order protocol as a state machine: a server, any number of phones that
 * follow poll - claim - swap - report, the kill switch, expiry and the tasks
 * that propose orders. Every request is one atomic step; any interleaving of
 * steps is a run.
 */
module OrderProtocol {
  import opened Common
  import opened Ledger
  import opened Orders

  /** What the exchange or router told the phone. */
  datatype Outcome = Filled(quantity: Option<real>, price: Option<real>) | Rejected

  datatype Stage = Idle | Won(id: nat) | Swapped(id: nat, outcome: Outcome)

  datatype Phone = Phone(account: string, queue: seq<nat>, stage: Stage)

  /** A phone sent the order to the market. */
  datatype Swap = Swap(id: nat, phone: nat, at: int)

  /** `swaps` and `reported` record what happened: swaps sent, and fills the ledger took, in order. */
  datatype World = World(
    now: int, orders: seq<Order>, rows: seq<Position>, phones: seq<Phone>, swaps: seq<Swap>, reported: seq<nat>)

  datatype Step =
    | Advance(seconds: nat)
    | Propose(key: Key, side: Side, quantity: real, targets: Targets, decision: Option<string>)
    | LiveExit(key: Key)
    | KillSwitch(account: string)
    | Sweep(account: string)
    | PhoneDoes(phone: nat, action: Action)

  /** One atomic step of a phone; `Crash` drops everything it remembers. */
  datatype Action = Poll | Skip | ClaimHead(answered: bool) | Send(outcome: Outcome) | ReportBack | Crash

  function SetPhone(w: World, p: nat, phone: Phone): World
    requires p < |w.phones|
  {
    w.(phones := w.phones[p := phone])
  }

  /** The agent and close-all store an order unless one of its symbol and side is in flight. */
  function AfterPropose(w: World, s: Step): World
    requires s.Propose?
  {
    if AnyInFlight(w.orders, s.key, s.side, w.now) then w
    else w.(orders := w.orders + [Proposed(s.key, s.side, s.quantity, s.targets, s.decision, w.now)])
  }

  predicate SweepsPosition(w: World, key: Key) {
    FindOpen(w.rows, key).Some? && !AnyPendingSell(w.orders, key)
  }

  /** The live-exit sweep sells a whole open position, with its own guard. */
  function AfterLiveExit(w: World, key: Key): World {
    if SweepsPosition(w, key)
    then
      var held := w.rows[FindOpen(w.rows, key).value].quantity;
      var none := Targets(Some(0.0), Some(0.0), Some(0.0));
      w.(orders := w.orders + [Proposed(key, Sell, held, none, None, w.now)])
    else w
  }

  /** A lost answer leaves the order claimed while the phone gives up its round. */
  function AfterClaimHead(w: World, p: nat, answered: bool): World
    requires p < |w.phones|
  {
    var phone := w.phones[p];
    if !phone.stage.Idle? || phone.queue == [] then w
    else
      var id, rest := phone.queue[0], phone.queue[1..];
      var won := id < |w.orders| && Claimable(w.orders[id], w.now);
      var served := w.(orders := AfterClaim(w.orders, id, w.now));
      if !answered then SetPhone(served, p, phone.(queue := []))
      else SetPhone(served, p, phone.(queue := rest, stage := if won then Won(id) else Idle))
  }

  function AfterSend(w: World, p: nat, outcome: Outcome): World
    requires p < |w.phones|
  {
    var phone := w.phones[p];
    if !phone.stage.Won? then w
    else
      SetPhone(w, p, phone.(stage := Swapped(phone.stage.id, outcome)))
        .(swaps := w.swaps + [Swap(phone.stage.id, p, w.now)])
  }

  function ReportedOrder(o: Order, outcome: Outcome): Order {
    match outcome
    case Filled(q, price) => Report(o, Executed, q, price)
    case Rejected => Report(o, Failed, None, None)
  }

  function AfterReport(w: World, p: nat): World
    requires p < |w.phones|
  {
    var phone := w.phones[p];
    if !phone.stage.Swapped? || phone.stage.id >= |w.orders| then w
    else
      var id := phone.stage.id;
      var o := ReportedOrder(w.orders[id], phone.stage.outcome);
      var idle := SetPhone(w, p, phone.(stage := Idle));
      if ReportRaises(w.rows, o) then idle
      else if AppliesFill(o)
      then idle.(orders := w.orders[id := o], rows := Applied(w.rows, FillFrom(o)), reported := w.reported + [id])
      else idle.(orders := w.orders[id := o])
  }

  function AfterAction(w: World, p: nat, action: Action): World
    requires p < |w.phones|
  {
    var phone := w.phones[p];
    match action
    case Poll =>
      if phone.stage.Idle? && phone.queue == []
      then SetPhone(w, p, phone.(queue := OfferedIds(w.orders, phone.account, w.now))) else w
    case Skip =>
      if phone.stage.Idle? && phone.queue != [] then SetPhone(w, p, phone.(queue := phone.queue[1..])) else w
    case ClaimHead(answered) => AfterClaimHead(w, p, answered)
    case Send(outcome) => AfterSend(w, p, outcome)
    case ReportBack => AfterReport(w, p)
    case Crash => SetPhone(w, p, phone.(queue := [], stage := Idle))
  }

  function Next(w: World, s: Step): World {
    match s
    case Advance(seconds) => w.(now := w.now + seconds)
    case Propose(_, _, _, _, _) => AfterPropose(w, s)
    case LiveExit(key) => AfterLiveExit(w, key)
    case KillSwitch(account) => w.(orders := AfterKillSwitch(w.orders, account))
    case Sweep(account) => w.(orders := AfterSweep(w.orders, account, w.now))
    case PhoneDoes(p, action) => if p < |w.phones| then AfterAction(w, p, action) else w
  }

  function Run(w: World, steps: seq<Step>): World
    decreases steps
  {
    if steps == [] then w else Run(Next(w, steps[0]), steps[1..])
  }

  ghost predicate Initial(w: World) {
    && w.orders == [] && w.rows == [] && w.swaps == [] && w.reported == []
    && forall p | 0 <= p < |w.phones| :: w.phones[p].stage.Idle? && w.phones[p].queue == []
  }

  // ----- an order's life -----

  /** The only ways a stored order may change. */
  predicate LifeCycle(o: Order, o': Order) {
    || o' == o
    || (o.status.Pending? && o'.status.Claimed?
        && o'.claimedAt.Some? && o'.claimedAt.value <= o.expiresAt == o'.expiresAt)
    || (o.status.Pending? && o'.status.Expired? && o' == o.(status := Expired))
    || (o.status.Pending? && o'.status.Cancelled? && o.side.Buy? && o' == o.(status := Cancelled))
    || (o.status.Claimed? && (o'.status.Executed? || o'.status.Failed?)
        && o'.claimedAt == o.claimedAt && o'.expiresAt == o.expiresAt && o'.key == o.key && o'.side == o.side)
  }

  // ----- who may hold or have sent an order -----

  predicate InMarketStatus(o: Order) {
    o.status.Claimed? || o.status.Executed? || o.status.Failed?
  }

  ghost predicate PhonesOk(w: World) {
    && (forall p | 0 <= p < |w.phones| && !w.phones[p].stage.Idle? ::
          w.phones[p].stage.id < |w.orders| && w.orders[w.phones[p].stage.id].status.Claimed?)
    && (forall p, q | 0 <= p < q < |w.phones| && !w.phones[p].stage.Idle? && !w.phones[q].stage.Idle? ::
          w.phones[p].stage.id != w.phones[q].stage.id)
  }

  ghost predicate SwapsOk(w: World) {
    && (forall i | 0 <= i < |w.swaps| ::
          w.swaps[i].id < |w.orders| && InMarketStatus(w.orders[w.swaps[i].id]))
    && (forall i, j | 0 <= i < j < |w.swaps| :: w.swaps[i].id != w.swaps[j].id)
    && (forall i, p | 0 <= i < |w.swaps| && 0 <= p < |w.phones| ::
          w.phones[p].stage.Won? ==> w.swaps[i].id != w.phones[p].stage.id)
  }

  ghost predicate ClaimsOk(w: World) {
    forall i | 0 <= i < |w.orders| && InMarketStatus(w.orders[i]) ::
      w.orders[i].claimedAt.Some? && w.orders[i].claimedAt.value <= w.orders[i].expiresAt
  }

  ghost predicate ReportsOk(w: World) {
    && (forall i | 0 <= i < |w.reported| :: w.reported[i] < |w.orders| && AppliesFill(w.orders[w.reported[i]]))
    && (forall i, j | 0 <= i < j < |w.reported| :: w.reported[i] != w.reported[j])
    && (forall id | 0 <= id < |w.orders| && AppliesFill(w.orders[id]) :: id in w.reported)
    && w.rows == AppliedAll([], FillsAt(w.orders, w.reported))
    && !RaisesIn([], FillsAt(w.orders, w.reported))
  }

  ghost predicate Inv(w: World) {
    PhonesOk(w) && SwapsOk(w) && ClaimsOk(w) && ReportsOk(w)
  }

  /** An order keeps its market history: what was sent or reported stays so. */
  lemma OrdersEvolve(w: World, s: Step)
    requires PhonesOk(w)
    ensures |w.orders| <= |Next(w, s).orders|
    ensures forall i | 0 <= i < |w.orders| :: LifeCycle(w.orders[i], Next(w, s).orders[i])
    ensures forall i | |w.orders| <= i < |Next(w, s).orders| :: Next(w, s).orders[i].status.Pending?
  {
  }

  /** Steps that touch no phone leave every claimed order claimed. */
  lemma ClaimedStays(w: World, s: Step)
    requires !s.PhoneDoes?
    ensures forall i | 0 <= i < |w.orders| && w.orders[i].status.Claimed? :: Next(w, s).orders[i] == w.orders[i]
    ensures Next(w, s).phones == w.phones && Next(w, s).swaps == w.swaps
    ensures |w.orders| <= |Next(w, s).orders|
  {
  }

  lemma PhonesOkAfterClaim(w: World, p: nat, answered: bool)
    requires PhonesOk(w) && p < |w.phones|
    ensures PhonesOk(AfterClaimHead(w, p, answered))
  {
    var w' := AfterClaimHead(w, p, answered);
    forall q | 0 <= q < |w'.phones| && !w'.phones[q].stage.Idle?
      ensures w'.phones[q].stage.id < |w'.orders| && w'.orders[w'.phones[q].stage.id].status.Claimed?
    {
      assert q != p ==> w'.phones[q] == w.phones[q];
    }
  }

  lemma PhonesOkAfterReport(w: World, p: nat)
    requires PhonesOk(w) && p < |w.phones|
    ensures PhonesOk(AfterReport(w, p))
  {
    var w' := AfterReport(w, p);
    forall q | 0 <= q < |w'.phones| && !w'.phones[q].stage.Idle?
      ensures w'.phones[q].stage.id < |w'.orders| && w'.orders[w'.phones[q].stage.id].status.Claimed?
    {
      assert w'.phones[q] == w.phones[q];
    }
  }

  lemma PhonesStayOk(w: World, s: Step)
    requires PhonesOk(w)
    ensures PhonesOk(Next(w, s))
  {
    if !s.PhoneDoes? {
      ClaimedStays(w, s);
    } else if s.phone < |w.phones| {
      match s.action
      case ClaimHead(answered) => PhonesOkAfterClaim(w, s.phone, answered);
      case ReportBack => PhonesOkAfterReport(w, s.phone);
      case _ =>
    }
  }

  lemma SwapsOkAfterClaim(w: World, p: nat, answered: bool)
    requires PhonesOk(w) && SwapsOk(w) && p < |w.phones|
    ensures SwapsOk(AfterClaimHead(w, p, answered))
  {
    var w' := AfterClaimHead(w, p, answered);
    forall i, q | 0 <= i < |w'.swaps| && 0 <= q < |w'.phones| && w'.phones[q].stage.Won?
      ensures w'.swaps[i].id != w'.phones[q].stage.id
    {
      assert q != p ==> w'.phones[q] == w.phones[q];
      assert InMarketStatus(w.orders[w.swaps[i].id]);
    }
  }

  lemma SwapsOkAfterSend(w: World, p: nat, outcome: Outcome)
    requires PhonesOk(w) && SwapsOk(w) && p < |w.phones|
    ensures SwapsOk(AfterSend(w, p, outcome))
  {
    var w' := AfterSend(w, p, outcome);
    forall i, q | 0 <= i < |w'.swaps| && 0 <= q < |w'.phones| && w'.phones[q].stage.Won?
      ensures w'.swaps[i].id != w'.phones[q].stage.id
    {
      assert w'.phones[q] == w.phones[q];
    }
  }

  lemma SwapsOkAfterReport(w: World, p: nat)
    requires PhonesOk(w) && SwapsOk(w) && p < |w.phones|
    ensures SwapsOk(AfterReport(w, p))
  {
    var w' := AfterReport(w, p);
    forall i, q | 0 <= i < |w'.swaps| && 0 <= q < |w'.phones| && w'.phones[q].stage.Won?
      ensures w'.swaps[i].id != w'.phones[q].stage.id
    {
      assert w'.phones[q] == w.phones[q];
    }
  }

  lemma SwapsOkElsewhere(w: World, s: Step)
    requires PhonesOk(w) && SwapsOk(w) && !s.PhoneDoes?
    ensures SwapsOk(Next(w, s))
  {
    ClaimedStays(w, s);
    OrdersEvolve(w, s);
    hide Next;
    forall i | 0 <= i < |w.swaps|
      ensures InMarketStatus(Next(w, s).orders[w.swaps[i].id])
    {
      assert LifeCycle(w.orders[w.swaps[i].id], Next(w, s).orders[w.swaps[i].id]);
    }
  }

  lemma SwapsStayOk(w: World, s: Step)
    requires PhonesOk(w) && SwapsOk(w)
    ensures SwapsOk(Next(w, s))
  {
    if !s.PhoneDoes? {
      SwapsOkElsewhere(w, s);
    } else if s.phone < |w.phones| {
      hide AfterClaimHead, AfterReport, AfterSend;
      match s.action
      case ClaimHead(answered) => SwapsOkAfterClaim(w, s.phone, answered);
      case Send(outcome) => SwapsOkAfterSend(w, s.phone, outcome);
      case ReportBack => SwapsOkAfterReport(w, s.phone);
      case _ =>
    }
  }

  lemma ClaimsStayOk(w: World, s: Step)
    requires PhonesOk(w) && ClaimsOk(w)
    ensures ClaimsOk(Next(w, s))
  {
    OrdersEvolve(w, s);
  }

  lemma ReportStaysOk(w: World, p: nat)
    requires PhonesOk(w) && ReportsOk(w) && p < |w.phones|
    ensures ReportsOk(AfterReport(w, p))
  {
    hide Applied, AppliedAll, RaisesIn, DividesByZero;
    var w' := AfterReport(w, p);
    if w.phones[p].stage.Swapped? {
      var id := w.phones[p].stage.id;
      assert id !in w.reported;
      assert forall i | 0 <= i < |w.reported| :: w'.orders[w.reported[i]] == w.orders[w.reported[i]];
      var before, after := FillsAt(w.orders, w.reported), FillsAt(w'.orders, w'.reported);
      if w'.reported == w.reported {
        assert after == before;
      } else {
        var f := FillFrom(w'.orders[id]);
        assert after == before + [f];
        OneMoreFill([], before, f);
      }
    }
  }

  /** Only a report makes or changes an executed order. */
  lemma ExecutedOnlyByReport(w: World, s: Step)
    requires !(s.PhoneDoes? && s.action.ReportBack?)
    ensures |w.orders| <= |Next(w, s).orders|
    ensures forall i | 0 <= i < |w.orders| && w.orders[i].status.Executed? :: Next(w, s).orders[i] == w.orders[i]
    ensures forall i | 0 <= i < |Next(w, s).orders| && Next(w, s).orders[i].status.Executed? ::
              i < |w.orders| && w.orders[i].status.Executed?
    ensures Next(w, s).rows == w.rows && Next(w, s).reported == w.reported
  {
  }

  lemma ReportsStayOk(w: World, s: Step)
    requires PhonesOk(w) && ReportsOk(w)
    ensures ReportsOk(Next(w, s))
  {
    if s.PhoneDoes? && s.action.ReportBack? {
      if s.phone < |w.phones| {
        ReportStaysOk(w, s.phone);
      }
    } else {
      ExecutedOnlyByReport(w, s);
      SameExecutedSameReports(w, Next(w, s));
    }
  }

  lemma SameExecutedSameReports(w: World, w': World)
    requires ReportsOk(w)
    requires |w.orders| <= |w'.orders| && w'.rows == w.rows && w'.reported == w.reported
    requires forall i | 0 <= i < |w.orders| && w.orders[i].status.Executed? :: w'.orders[i] == w.orders[i]
    requires forall i | 0 <= i < |w'.orders| && w'.orders[i].status.Executed? ::
               i < |w.orders| && w.orders[i].status.Executed?
    ensures ReportsOk(w')
  {
    forall i | 0 <= i < |w.reported|
      ensures w.reported[i] < |w'.orders| && w'.orders[w.reported[i]] == w.orders[w.reported[i]]
    {
    }
    assert FillsAt(w'.orders, w'.reported) == FillsAt(w.orders, w.reported);
  }

  lemma {:induction false} InvAlways(w: World, steps: seq<Step>)
    requires Inv(w)
    ensures Inv(Run(w, steps))
    decreases steps
  {
    if steps != [] {
      PhonesStayOk(w, steps[0]);
      SwapsStayOk(w, steps[0]);
      ClaimsStayOk(w, steps[0]);
      ReportsStayOk(w, steps[0]);
      InvAlways(Next(w, steps[0]), steps[1..]);
    }
  }

  // ----- every run: an order is sent and booked at most once -----

  /**
   * However phones, tasks, expiry and the kill switch interleave: no order is
   * sent to the market twice, only orders claimed in time are sent, and the
   * ledger is exactly the replay of the executed fills, each taken once.
   */
  lemma AtMostOnce(start: World, steps: seq<Step>)
    requires Initial(start)
    ensures var w := Run(start, steps);
      && (forall i, j | 0 <= i < j < |w.swaps| :: w.swaps[i].id != w.swaps[j].id)
      && (forall i | 0 <= i < |w.swaps| ::
            && w.swaps[i].id < |w.orders|
            && var o := w.orders[w.swaps[i].id];
               && o.claimedAt.Some? && o.claimedAt.value <= o.expiresAt
               && !o.status.Pending? && !o.status.Expired? && !o.status.Cancelled?)
      && (forall i, j | 0 <= i < j < |w.reported| :: w.reported[i] != w.reported[j])
      && (forall id | 0 <= id < |w.orders| :: AppliesFill(w.orders[id]) <==> id in w.reported)
      && (forall i | 0 <= i < |w.reported| :: w.reported[i] < |w.orders|)
      && w.rows == AppliedAll([], FillsAt(w.orders, w.reported))
      && !RaisesIn([], FillsAt(w.orders, w.reported))
  {
    assert FillsAt(start.orders, start.reported) == [];
    assert Inv(start);
    InvAlways(start, steps);
  }

  predicate Settled(o: Order) {
    o.status.Executed? || o.status.Failed? || o.status.Expired? || o.status.Cancelled?
  }

  /** A settled order never changes again. */
  lemma {:induction false} SettledForever(w: World, steps: seq<Step>, id: nat)
    requires Inv(w) && id < |w.orders| && Settled(w.orders[id])
    ensures id < |Run(w, steps).orders| && Run(w, steps).orders[id] == w.orders[id]
    decreases steps
  {
    if steps != [] {
      OrdersEvolve(w, steps[0]);
      assert LifeCycle(w.orders[id], Next(w, steps[0]).orders[id]);
      InvAlways(w, steps[..1]);
      assert Run(w, steps[..1]) == Next(w, steps[0]);
      SettledForever(Next(w, steps[0]), steps[1..], id);
    }
  }

  /** Once cancelled or expired, an order is not sent in any continuation, whatever phones still queue it. */
  lemma CancelledNeverSent(w: World, steps: seq<Step>, id: nat)
    requires Inv(w) && id < |w.orders|
    requires w.orders[id].status.Cancelled? || w.orders[id].status.Expired?
    ensures forall i | 0 <= i < |Run(w, steps).swaps| :: Run(w, steps).swaps[i].id != id
  {
    SettledForever(w, steps, id);
    InvAlways(w, steps);
  }

  /** Pulling the kill switch stops every pending buy of the account for good, whatever happens afterwards. */
  lemma KillSwitchStops(w: World, account: string, steps: seq<Step>, id: nat)
    requires Inv(w) && id < |w.orders|
    requires w.orders[id].key.account == account && w.orders[id].side.Buy? && w.orders[id].status.Pending?
    ensures var end := Run(w, [KillSwitch(account)] + steps);
      && id < |end.orders| && end.orders[id] == w.orders[id].(status := Cancelled)
      && forall i | 0 <= i < |end.swaps| :: end.swaps[i].id != id
  {
    var next := Next(w, KillSwitch(account));
    KillSwitchExactly(w.orders, account);
    InvAlways(w, [KillSwitch(account)]);
    assert [KillSwitch(account)][1..] == [] && Run(w, [KillSwitch(account)]) == Run(next, []) == next;
    assert ([KillSwitch(account)] + steps)[1..] == steps;
    SettledForever(next, steps, id);
    CancelledNeverSent(next, steps, id);
  }

  /** It leaves sells, other accounts and orders a phone has claimed as they are, so those can still be sent. */
  lemma KillSwitchSpares(w: World, account: string, id: nat)
    requires id < |w.orders|
    requires w.orders[id].key.account != account || w.orders[id].side.Sell? || !w.orders[id].status.Pending?
    ensures Next(w, KillSwitch(account)).orders[id] == w.orders[id]
    ensures Next(w, KillSwitch(account)) == w.(orders := Next(w, KillSwitch(account)).orders)
  {
    KillSwitchExactly(w.orders, account);
  }

  // ----- whose orders a phone sends, and what is proposed -----

  /** A phone holds orders of its own account only. */
  ghost predicate OwnOrders(w: World) {
    && (forall p | 0 <= p < |w.phones| ::
          && (forall k | 0 <= k < |w.phones[p].queue| :: OwnedBy(w, w.phones[p].queue[k], w.phones[p].account))
          && (!w.phones[p].stage.Idle? ==> OwnedBy(w, w.phones[p].stage.id, w.phones[p].account)))
    && (forall i | 0 <= i < |w.swaps| ::
          w.swaps[i].phone < |w.phones| && OwnedBy(w, w.swaps[i].id, w.phones[w.swaps[i].phone].account))
  }

  predicate OwnedBy(w: World, id: nat, account: string) {
    id < |w.orders| && w.orders[id].key.account == account
  }

  /** No step renames an order or moves a phone to another account. */
  lemma KeysStay(w: World, s: Step)
    ensures |w.orders| <= |Next(w, s).orders| && |w.phones| == |Next(w, s).phones|
    ensures forall i | 0 <= i < |w.orders| :: Next(w, s).orders[i].key == w.orders[i].key
    ensures forall p | 0 <= p < |w.phones| :: Next(w, s).phones[p].account == w.phones[p].account
  {
    hide Applied, ReportRaises, AppliesFill, FillFrom, AnyInFlight, AnyPendingSell, FindOpen, OfferedIds;
  }

  lemma OwnOrdersStay(w: World, s: Step)
    requires OwnOrders(w)
    ensures OwnOrders(Next(w, s))
  {
    hide Applied, ReportRaises, AppliesFill, FillFrom, AnyInFlight, AnyPendingSell, FindOpen, OfferedIds;
    hide AfterKillSwitch, AfterSweep, AfterClaim, SweepsPosition;
    var w' := Next(w, s);
    KeysStay(w, s);
    forall p | 0 <= p < |w'.phones|
      ensures forall k | 0 <= k < |w'.phones[p].queue| :: OwnedBy(w', w'.phones[p].queue[k], w'.phones[p].account)
      ensures !w'.phones[p].stage.Idle? ==> OwnedBy(w', w'.phones[p].stage.id, w'.phones[p].account)
    {
      PhoneHolds(w, s, p);
    }
    forall i | 0 <= i < |w'.swaps|
      ensures w'.swaps[i].phone < |w'.phones|
      ensures OwnedBy(w', w'.swaps[i].id, w'.phones[w'.swaps[i].phone].account)
    {
      if i < |w.swaps| {
        assert w'.swaps[i] == w.swaps[i];
      }
    }
  }

  /** What a phone holds after a step it held before, or it was offered. */
  lemma PhoneHolds(w: World, s: Step, p: nat)
    requires OwnOrders(w) && p < |w.phones|
    ensures p < |Next(w, s).phones|
    ensures var phone := Next(w, s).phones[p];
      && (forall k | 0 <= k < |phone.queue| :: OwnedBy(w, phone.queue[k], phone.account))
      && (!phone.stage.Idle? ==> OwnedBy(w, phone.stage.id, phone.account))
  {
    hide Applied, ReportRaises, AppliesFill, FillFrom, AnyInFlight, AnyPendingSell, FindOpen;
    hide AfterKillSwitch, AfterSweep, AfterClaim, SweepsPosition;
    KeysStay(w, s);
    var phone := Next(w, s).phones[p];
    forall k | 0 <= k < |phone.queue|
      ensures OwnedBy(w, phone.queue[k], phone.account)
    {
      assert phone.queue[k] in phone.queue;
      if s.PhoneDoes? && s.phone == p && s.action.Poll? && phone.queue != w.phones[p].queue {
        assert phone.queue == OfferedIds(w.orders, phone.account, w.now);
      }
    }
  }

  /** In every run every order is sent by a phone of the account it belongs to. */
  lemma {:induction false} OwnAccountAlways(w: World, steps: seq<Step>)
    requires OwnOrders(w)
    ensures OwnOrders(Run(w, steps))
    decreases steps
  {
    hide OwnOrders, Next;
    if steps != [] {
      OwnOrdersStay(w, steps[0]);
      OwnAccountAlways(Next(w, steps[0]), steps[1..]);
    }
  }

  /** A poll of an idle phone queues every pending, unexpired order of its account, oldest first, and no other. */
  lemma PollMissesNothing(w: World, p: nat)
    requires p < |w.phones| && w.phones[p].stage.Idle? && w.phones[p].queue == []
    ensures var w' := Next(w, PhoneDoes(p, Poll));
      && w' == w.(phones := w'.phones) && |w'.phones| == |w.phones|
      && (forall q | 0 <= q < |w.phones| && q != p :: w'.phones[q] == w.phones[q])
      && w'.phones[p] == w.phones[p].(queue := w'.phones[p].queue)
      && (forall id: nat :: id in w'.phones[p].queue <==>
            (id < |w.orders| && w.orders[id].key.account == w.phones[p].account && w.orders[id].status.Pending?
             && w.now < w.orders[id].expiresAt))
      && (forall i, j | 0 <= i < j < |w'.phones[p].queue| :: w'.phones[p].queue[i] < w'.phones[p].queue[j])
  {
  }

  /** A proposal is stored if and only if no order of its symbol and side is claimed, or pending and unexpired. */
  lemma ProposeExactly(w: World, s: Step)
    requires s.Propose?
    ensures var blocked := exists i | 0 <= i < |w.orders| ::
        && w.orders[i].key == s.key && w.orders[i].side == s.side
        && (w.orders[i].status.Claimed? || (w.orders[i].status.Pending? && w.now < w.orders[i].expiresAt));
      Next(w, s) == if blocked then w
                    else w.(orders := w.orders + [Order(s.key, s.side, s.quantity, s.targets, s.decision, w.now + 300,
                                                        Pending, None, None, None)])
  {
    assert AnyInFlight(w.orders, s.key, s.side, w.now) <==>
      exists i | 0 <= i < |w.orders| ::
        && w.orders[i].key == s.key && w.orders[i].side == s.side
        && (w.orders[i].status.Claimed? || (w.orders[i].status.Pending? && w.now < w.orders[i].expiresAt));
  }

  /** The live-exit sweep sells all of an open position, if and only if no sell of its symbol is pending. */
  lemma LiveExitExactly(w: World, key: Key, k: nat)
    requires OneOpenPerKey(w.rows) && k < |w.rows| && w.rows[k].open && w.rows[k].key == key
    ensures var blocked := exists i | 0 <= i < |w.orders| ::
        w.orders[i].key == key && w.orders[i].side.Sell? && w.orders[i].status.Pending?;
      Next(w, LiveExit(key))
      == if blocked then w
         else w.(orders := w.orders + [Order(key, Sell, w.rows[k].quantity, Targets(Some(0.0), Some(0.0), Some(0.0)),
                                             None, w.now + 300, Pending, None, None, None)])
  {
    assert FindOpen(w.rows, key) == Some(k);
  }

  lemma LiveExitNeedsPosition(w: World, key: Key)
    requires forall k | 0 <= k < |w.rows| :: !(w.rows[k].open && w.rows[k].key == key)
    ensures Next(w, LiveExit(key)) == w
  {
    assert FindOpen(w.rows, key).None?;
  }

  /** A claim whose answer is lost: the order stays claimed, and the phone has forgotten it. */
  lemma LostAnswer(w: World, p: nat, id: nat)
    requires p < |w.phones| && w.phones[p].stage.Idle? && w.phones[p].queue != [] && w.phones[p].queue[0] == id
    requires id < |w.orders| && w.orders[id].status.Pending? && w.now <= w.orders[id].expiresAt
    ensures var w' := Next(w, PhoneDoes(p, ClaimHead(false)));
      && w'.orders == w.orders[id := w.orders[id].(status := Claimed, claimedAt := Some(w.now))]
      && w'.phones == w.phones[p := Phone(w.phones[p].account, [], Idle)] && w'.swaps == w.swaps
  {
  }

  // ----- at most one live order per symbol and side -----

  /** Claimed, or still claimable. */
  predicate Live(o: Order, now: int) {
    o.status.Claimed? || Claimable(o, now)
  }

  ghost predicate OneLive(w: World) {
    forall i, j | 0 <= i < j < |w.orders| && Live(w.orders[i], w.now) && Live(w.orders[j], w.now) ::
      w.orders[i].key != w.orders[j].key || w.orders[i].side != w.orders[j].side
  }

  predicate AtExpiryInstant(o: Order, key: Key, side: Side, now: int) {
    o.key == key && o.side == side && o.status.Pending? && o.expiresAt == now
  }

  /**
   * The two ways a step can put a second live order beside another: the guard
   * no longer sees an order at its expiry instant while a claim still takes it,
   * and the live-exit sweep does not look at claimed sells.
   */
  predicate Duplicates(w: World, s: Step) {
    match s
    case Propose(key, side, _, _, _) =>
      && !AnyInFlight(w.orders, key, side, w.now)
      && exists i | 0 <= i < |w.orders| :: AtExpiryInstant(w.orders[i], key, side, w.now)
    case LiveExit(key) =>
      && SweepsPosition(w, key)
      && exists i | 0 <= i < |w.orders| ::
           w.orders[i].key == key && w.orders[i].side.Sell? && w.orders[i].status.Claimed?
    case _ => false
  }

  lemma OldLiveStaysPaired(w: World, s: Step)
    requires PhonesOk(w)
    ensures forall i | 0 <= i < |w.orders| && Live(Next(w, s).orders[i], Next(w, s).now) ::
              && Live(w.orders[i], w.now)
              && w.orders[i].key == Next(w, s).orders[i].key && w.orders[i].side == Next(w, s).orders[i].side
    ensures !s.Propose? && !s.LiveExit? ==> |Next(w, s).orders| == |w.orders|
  {
  }

  /** Exactly those steps break the one-live-order rule. */
  lemma DuplicatesExactly(w: World, s: Step)
    requires PhonesOk(w) && OneLive(w)
    ensures OneLive(Next(w, s)) <==> !Duplicates(w, s)
  {
    var w' := Next(w, s);
    OldLiveStaysPaired(w, s);
    if w'.orders == w.orders || |w'.orders| == |w.orders| {
      assert OneLive(w');
    } else {
      var n := |w.orders|;
      var o := w'.orders[n];
      assert w'.orders == w.orders + [o] && w'.now == w.now && Live(o, w.now);
      assert OneLive(w') <==>
        forall i | 0 <= i < n && Live(w.orders[i], w.now) :: w.orders[i].key != o.key || w.orders[i].side != o.side
      by {
        assert forall i | 0 <= i < n :: w'.orders[i] == w.orders[i];
      }
      if s.Propose? {
        assert forall i | 0 <= i < n && w.orders[i].key == o.key && w.orders[i].side == o.side ::
          Live(w.orders[i], w.now) <==> AtExpiryInstant(w.orders[i], o.key, o.side, w.now)
        by {
          assert forall i | 0 <= i < n :: !InFlight(w.orders[i], o.key, o.side, w.now);
        }
      } else {
        assert forall i | 0 <= i < n && w.orders[i].key == o.key && w.orders[i].side.Sell? ::
          !w.orders[i].status.Pending?;
      }
    }
  }

  /** No step of the run duplicates. */
  ghost predicate NoDuplicates(w: World, steps: seq<Step>)
    decreases steps
  {
    steps != [] ==> !Duplicates(w, steps[0]) && NoDuplicates(Next(w, steps[0]), steps[1..])
  }

  /** A run keeps one live order per symbol and side, in every state, iff none of its steps duplicates. */
  lemma {:induction false} OneLiveAlways(w: World, steps: seq<Step>)
    requires PhonesOk(w) && OneLive(w)
    ensures NoDuplicates(w, steps) <==> forall n | 0 <= n <= |steps| :: OneLive(Run(w, steps[..n]))
    decreases steps
  {
    if steps == [] {
      assert forall n | 0 <= n <= |steps| :: steps[..n] == [];
    } else {
      var next := Next(w, steps[0]);
      DuplicatesExactly(w, steps[0]);
      PhonesStayOk(w, steps[0]);
      forall n | 0 < n <= |steps|
        ensures Run(w, steps[..n]) == Run(next, steps[1..][..n - 1])
      {
        assert steps[..n][1..] == steps[1..][..n - 1];
      }
      assert Run(w, steps[..1]) == next;
      if OneLive(next) {
        OneLiveAlways(next, steps[1..]);
        if NoDuplicates(next, steps[1..]) {
          forall n | 0 <= n <= |steps|
            ensures OneLive(Run(w, steps[..n]))
          {
            if n > 0 {
              assert OneLive(Run(next, steps[1..][..n - 1]));
            }
          }
        } else {
          var m :| 0 <= m <= |steps| - 1 && !OneLive(Run(next, steps[1..][..m]));
          assert !OneLive(Run(w, steps[..m + 1]));
        }
      }
    }
  }

  /** A guarded proposal at the exact expiry instant leaves two claimable buys of one symbol. */
  lemma ExpiryInstantDuplicates() returns (start: World, steps: seq<Step>)
    ensures Initial(start) && OneLive(start)
    ensures !OneLive(Run(start, steps))
  {
    start := World(0, [], [], [], [], []);
    var key := Key("account", "WETH/USDC");
    var buy := Propose(key, Buy, 1.0, Targets(None, None, None), None);
    steps := [buy, Advance(EXPIRES_IN), buy];
    var w1 := Next(start, buy);
    var w2 := Next(w1, Advance(EXPIRES_IN));
    var w3 := Next(w2, buy);
    assert steps[1..] == [Advance(EXPIRES_IN), buy] && steps[1..][1..] == [buy];
    assert Run(start, steps) == Run(w1, steps[1..]) == Run(w2, [buy]) == Run(w3, []) == w3;
    assert w2.orders == [Proposed(key, Buy, 1.0, buy.targets, None, 0)];
    assert Live(w3.orders[0], w3.now) && Live(w3.orders[1], w3.now);
  }

  lemma {:induction false} RunThen(w: World, steps: seq<Step>, s: Step)
    ensures Run(w, steps + [s]) == Next(Run(w, steps), s)
    decreases steps
  {
    hide Next;
    if steps == [] {
      assert steps + [s] == [s] && [s][1..] == [];
    } else {
      assert (steps + [s])[1..] == steps[1..] + [s];
      RunThen(Next(w, steps[0]), steps[1..], s);
    }
  }

  /** A phone that is offered one order claims it. */
  lemma PollsAndClaims(w: World, id: nat)
    requires w.phones == [Phone("account", [], Idle)] && id < |w.orders| && Claimable(w.orders[id], w.now)
    requires OfferedIds(w.orders, "account", w.now) == [id]
    ensures Next(Next(w, PhoneDoes(0, Poll)), PhoneDoes(0, ClaimHead(true)))
         == w.(orders := AfterClaim(w.orders, id, w.now), phones := [Phone("account", [], Won(id))])
  {
    assert [id][1..] == [];
  }

  /** And sends and reports it, filled. */
  lemma SendsAndReports(w: World, id: nat, quantity: real, price: real)
    requires w.phones == [Phone("account", [], Won(id))] && id < |w.orders| && quantity > 0.0 && price > 0.0
    requires w.rows == [] && w.orders[id].side.Buy?
    ensures var o := Report(w.orders[id], Executed, Some(quantity), Some(price));
      Next(Next(w, PhoneDoes(0, Send(Filled(Some(quantity), Some(price))))), PhoneDoes(0, ReportBack))
      == w.(orders := w.orders[id := o], rows := [Opened(FillFrom(o))], phones := [Phone("account", [], Idle)],
            swaps := w.swaps + [Swap(id, 0, w.now)], reported := w.reported + [id])
  {
  }

  lemma OffersLast(before: seq<Order>, o: Order, account: string, now: int)
    requires OfferedIds(before, account, now) == [] && Offered(o, account, now)
    ensures OfferedIds(before + [o], account, now) == [|before|]
  {
    assert (before + [o])[..|before|] == before;
  }

  /** One more step of a run. */
  lemma Reaches(start: World, steps: seq<Step>, w: World, s: Step, next: World)
    requires Run(start, steps) == w && Next(w, s) == next
    ensures Run(start, steps + [s]) == next
  {
    hide Next, Run;
    RunThen(start, steps, s);
  }

  /** The state after one phone has bought what it was offered. */
  lemma BuysOnce(key: Key, targets: Targets) returns (start: World, steps: seq<Step>)
    requires key.account == "account"
    ensures Initial(start) && OneLive(start)
    ensures var o := Report(Claim(Proposed(key, Buy, 1.0, targets, None, 0), 0), Executed, Some(1.0), Some(10.0));
      Run(start, steps) == World(0, [o], [Opened(FillFrom(o))], [Phone("account", [], Idle)], [Swap(0, 0, 0)], [0])
  {
    start := World(0, [], [], [Phone("account", [], Idle)], [], []);
    var b := Proposed(key, Buy, 1.0, targets, None, 0);
    var propose, sent := Propose(key, Buy, 1.0, targets, None), Send(Filled(Some(1.0), Some(10.0)));
    var w1 := start.(orders := [b]);
    assert Next(start, propose) == w1;
    OffersLast([], b, "account", 0);
    assert [] + [b] == [b];
    PollsAndClaims(w1, 0);
    var w2 := Next(w1, PhoneDoes(0, Poll));
    var w3 := w1.(orders := [Claim(b, 0)], phones := [Phone("account", [], Won(0))]);
    assert [b][0 := Claim(b, 0)] == [Claim(b, 0)];
    SendsAndReports(w3, 0, 1.0, 10.0);
    var w4 := Next(w3, PhoneDoes(0, sent));
    var w5 := Next(w4, PhoneDoes(0, ReportBack));
    hide Next;
    assert Run(start, []) == start;
    Reaches(start, [], start, propose, w1);
    steps := [] + [propose];
    Reaches(start, steps, w1, PhoneDoes(0, Poll), w2);
    steps := steps + [PhoneDoes(0, Poll)];
    Reaches(start, steps, w2, PhoneDoes(0, ClaimHead(true)), w3);
    steps := steps + [PhoneDoes(0, ClaimHead(true))];
    Reaches(start, steps, w3, PhoneDoes(0, sent), w4);
    steps := steps + [PhoneDoes(0, sent)];
    Reaches(start, steps, w4, PhoneDoes(0, ReportBack), w5);
    steps := steps + [PhoneDoes(0, ReportBack)];
  }

  /** A live exit whose sell a phone has claimed, and one more before it reports: two live sells of one symbol. */
  lemma LiveExitDuplicates() returns (start: World, steps: seq<Step>)
    ensures Initial(start) && OneLive(start)
    ensures !OneLive(Run(start, steps))
  {
    var key, none := Key("account", "WETH/USDC"), Targets(None, None, None);
    start, steps := BuysOnce(key, none);
    var w5 := Run(start, steps);
    var o, s := w5.orders[0], Proposed(key, Sell, 1.0, Targets(Some(0.0), Some(0.0), Some(0.0)), None, 0);
    var w6, w9 := w5.(orders := [o, s]), w5.(orders := [o, Claim(s, 0), s], phones := [Phone("account", [], Won(1))]);
    assert Next(w5, LiveExit(key)) == w6;
    OffersLast([o], s, "account", 0);
    assert [o] + [s] == [o, s];
    PollsAndClaims(w6, 1);
    var w7 := Next(w6, PhoneDoes(0, Poll));
    var w8 := w6.(orders := [o, Claim(s, 0)], phones := [Phone("account", [], Won(1))]);
    assert [o, s][1 := Claim(s, 0)] == [o, Claim(s, 0)];
    assert Next(w8, LiveExit(key)) == w9;
    assert Live(w9.orders[1], 0) && Live(w9.orders[2], 0);
    hide Next, Run, Live;
    Reaches(start, steps, w5, LiveExit(key), w6);
    steps := steps + [LiveExit(key)];
    Reaches(start, steps, w6, PhoneDoes(0, Poll), w7);
    steps := steps + [PhoneDoes(0, Poll)];
    Reaches(start, steps, w7, PhoneDoes(0, ClaimHead(true)), w8);
    steps := steps + [PhoneDoes(0, ClaimHead(true))];
    Reaches(start, steps, w8, LiveExit(key), w9);
    steps := steps + [LiveExit(key)];
  }
}
