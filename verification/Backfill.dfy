/**
 * Rebuilding the position ledger: delete an account's rows and replay its
 * executed orders in creation order.
 *
 * The replay runs in one database session. `autoflush` says whether a query in
 * that session sees the rows the session itself added before. The source
 * configures its sessions with autoflush off, so both settings are modelled:
 * with it the rebuild reproduces the incremental ledger, without it only under
 * the exact condition stated by `ConfiguredRebuildExact`.
 */
module Backfill {
  import opened Common
  import opened Ledger
  import opened Orders
  import opened OrderProtocol

  function Without(rows: seq<Position>, account: string): (r: seq<Position>)
    ensures forall i | 0 <= i < |r| :: r[i].key.account != account
  {
    if rows == [] then []
    else if rows[0].key.account == account then Without(rows[1..], account)
    else [rows[0]] + Without(rows[1..], account)
  }

  predicate Replayable(o: Order, account: string) {
    o.key.account == account && o.status.Executed? && o.filledQuantity.Some? && o.averagePrice.Some?
  }

  /** The ids replayed for an account, in creation order. */
  function ReplayIds(orders: seq<Order>, account: string): (ids: seq<nat>)
    ensures forall id: nat :: id in ids <==> id < |orders| && Replayable(orders[id], account)
    ensures forall i | 0 <= i < |ids| :: ids[i] < |orders|
    ensures forall i, j | 0 <= i < j < |ids| :: ids[i] < ids[j]
  {
    if orders == [] then []
    else
      var last := |orders| - 1;
      var ids := ReplayIds(orders[..last], account);
      assert forall id: nat | id in ids :: id < last;
      assert forall id: nat | id < last :: orders[..last][id] == orders[id];
      if Replayable(orders[last], account) then ids + [last] else ids
  }

  function ReplayFills(orders: seq<Order>, account: string): seq<Fill> {
    FillsAt(orders, ReplayIds(orders, account))
  }

  /** What a replay that never sees its own rows leaves: one row per buy. */
  function OneRowPerBuy(fills: seq<Fill>): (rows: seq<Position>)
    ensures forall i | 0 <= i < |rows| :: rows[i].open
  {
    if fills == [] then []
    else (if fills[0].side.Buy? then [Opened(fills[0])] else []) + OneRowPerBuy(fills[1..])
  }

  function Rebuilt(rows: seq<Position>, orders: seq<Order>, account: string, autoflush: bool): seq<Position> {
    var fills := ReplayFills(orders, account);
    if autoflush then AppliedAll(Without(rows, account), fills)
    else Without(rows, account) + OneRowPerBuy(fills)
  }

  // ----- the replay loop -----

  lemma {:induction false} AppendedBuy(rows: seq<Position>, fills: seq<Fill>, f: Fill)
    ensures AppliedAll(rows, fills + [f]) == Applied(AppliedAll(rows, fills), f)
    ensures OneRowPerBuy(fills + [f]) == OneRowPerBuy(fills) + (if f.side.Buy? then [Opened(f)] else [])
    decreases fills
  {
    if fills == [] {
      assert fills + [f] == [f];
      assert [f][1..] == [];
    } else {
      assert (fills + [f])[1..] == fills[1..] + [f];
      AppendedBuy(Applied(rows, fills[0]), fills[1..], f);
    }
  }

  lemma AppliedWithoutOpen(rows: seq<Position>, f: Fill)
    requires FindOpen(rows, f.key).None?
    ensures Applied(rows, f) == if f.side.Buy? then rows + [Opened(f)] else rows
  {
  }

  /** The replay of one account divides by zero: it can only when it sees the rows it has added. */
  predicate AccountRaises(rows: seq<Position>, orders: seq<Order>, account: string, autoflush: bool) {
    autoflush && RaisesIn(Without(rows, account), ReplayFills(orders, account))
  }

  /** One fill more: whether the replay has raised by then. */
  lemma RaisesAfter(rows: seq<Position>, fills: seq<Fill>, f: Fill, rest: seq<Fill>)
    ensures RaisesIn(rows, fills + [f] + rest) <==>
      || RaisesIn(rows, fills)
      || DividesByZero(AppliedAll(rows, fills), f)
      || RaisesIn(AppliedAll(rows, fills + [f]), rest)
  {
    hide Applied, DividesByZero;
    RaisesSplits(rows, fills + [f], rest);
    OneMoreFill(rows, fills, f);
  }

  /** An account's replay; a fill that raises ends it, and the caller rolls everything back. */
  method RebuildAccount(table: PositionTable, orders: seq<Order>, account: string, autoflush: bool)
    returns (ok: bool)
    modifies table
    ensures ok <==> !AccountRaises(old(table.rows), orders, account, autoflush)
    ensures ok ==> table.rows == Rebuilt(old(table.rows), orders, account, autoflush)
  {
    hide Applied, AppliedAll, OneRowPerBuy, DividesByZero, Opened, RaisesIn, FindOpen;
    ghost var kept := Without(table.rows, account);
    table.rows := Without(table.rows, account);
    var fills := ReplayFills(orders, account);
    var added: seq<Position> := [];
    ReplayStart(kept);
    RaisesNowhere(kept);
    for i := 0 to |fills|
      invariant autoflush ==> table.rows + added == AppliedAll(kept, fills[..i]) && !RaisesIn(kept, fills[..i])
      invariant !autoflush ==> table.rows == kept && added == OneRowPerBuy(fills[..i])
    {
      var f := fills[i];
      assert fills[..i + 1] == fills[..i] + [f];
      assert fills == fills[..i] + [f] + fills[i + 1..];
      assert fills[..i] + [f] == fills[..i] + [f] + [];
      AppendedBuy(kept, fills[..i], f);
      RaisesAfter(kept, fills[..i], f, fills[i + 1..]);
      RaisesAfter(kept, fills[..i], f, []);
      RaisesNowhere(AppliedAll(kept, fills[..i + 1]));
      if autoflush {
        table.rows := table.rows + added;
        added := [];
        assert table.rows + [] == table.rows;
      }
      NothingToDivide(table.rows, f);
      if FindOpen(table.rows, f.key).None? && f.side.Buy? {
        AppliedWithoutOpen(table.rows, f);
        added := added + [Opened(f)];
      } else {
        if !autoflush {
          KeptHasNone(kept, account, f);
        }
        var booked := table.ApplyFill(f);
        if !booked {
          return false;
        }
        assert table.rows + [] == table.rows;
        assert added + [] == added;
      }
    }
    assert fills[..|fills|] == fills;
    table.rows := table.rows + added;
    ok := true;
  }

  function RebuiltAll(rows: seq<Position>, orders: seq<Order>, accounts: seq<string>, autoflush: bool): seq<Position>
    decreases accounts
  {
    if accounts == [] then rows
    else RebuiltAll(Rebuilt(rows, orders, accounts[0], autoflush), orders, accounts[1..], autoflush)
  }

  /** The replay of some account divides by zero. */
  predicate RebuildRaises(rows: seq<Position>, orders: seq<Order>, accounts: seq<string>, autoflush: bool)
    decreases accounts
  {
    && accounts != []
    && (AccountRaises(rows, orders, accounts[0], autoflush)
        || RebuildRaises(Rebuilt(rows, orders, accounts[0], autoflush), orders, accounts[1..], autoflush))
  }

  /** The whole script, in one session: an error in any account's replay rolls all of it back. */
  method RebuildAll(table: PositionTable, orders: seq<Order>, accounts: seq<string>, autoflush: bool)
    returns (ok: bool)
    modifies table
    ensures ok <==> !RebuildRaises(old(table.rows), orders, accounts, autoflush)
    ensures table.rows == if ok then RebuiltAll(old(table.rows), orders, accounts, autoflush) else old(table.rows)
  {
    hide Rebuilt, AccountRaises;
    var before := table.rows;
    assert accounts[0..] == accounts;
    for i := 0 to |accounts|
      invariant RebuiltAll(before, orders, accounts, autoflush)
             == RebuiltAll(table.rows, orders, accounts[i..], autoflush)
      invariant RebuildRaises(before, orders, accounts, autoflush)
            <==> RebuildRaises(table.rows, orders, accounts[i..], autoflush)
    {
      assert accounts[i..][1..] == accounts[i + 1..];
      var done := RebuildAccount(table, orders, accounts[i], autoflush);
      if !done {
        table.rows := before;
        return false;
      }
    }
    ok := true;
  }

  /** As configured, the script never raises. */
  lemma {:induction false} ConfiguredNeverRaises(rows: seq<Position>, orders: seq<Order>, accounts: seq<string>)
    ensures !RebuildRaises(rows, orders, accounts, false)
    decreases accounts
  {
    hide Rebuilt;
    if accounts != [] {
      ConfiguredNeverRaises(Rebuilt(rows, orders, accounts[0], false), orders, accounts[1..]);
    }
  }

  lemma RaisesNowhere(rows: seq<Position>)
    ensures !RaisesIn(rows, [])
  {
  }

  lemma NothingToDivide(rows: seq<Position>, f: Fill)
    ensures FindOpen(rows, f.key).None? ==> !DividesByZero(rows, f)
  {
  }

  /** The other accounts' rows hold nothing of this one. */
  lemma KeptHasNone(kept: seq<Position>, account: string, f: Fill)
    requires forall i | 0 <= i < |kept| :: kept[i].key.account != account
    requires f.key.account == account
    ensures FindOpen(kept, f.key).None? && !DividesByZero(kept, f)
    ensures Applied(kept, f) == if f.side.Buy? then kept + [Opened(f)] else kept
  {
  }

  lemma ReplayStart(rows: seq<Position>)
    ensures AppliedAll(rows, []) == rows && rows + [] == rows && OneRowPerBuy([]) == []
  {
  }

  // ----- other accounts, and twice equals once -----

  ghost predicate OnlyAccount(fills: seq<Fill>, account: string) {
    forall i | 0 <= i < |fills| :: fills[i].key.account == account
  }

  lemma {:induction false} FindOpenSkips(others: seq<Position>, rows: seq<Position>, key: Key)
    requires forall i | 0 <= i < |others| :: others[i].key.account != key.account
    ensures var i := FindOpen(others + rows, key); var k := FindOpen(rows, key);
      && (i.None? <==> k.None?)
      && (i.Some? ==> i.value == |others| + k.value)
  {
    if others == [] {
      assert others + rows == rows;
    } else {
      assert (others + rows)[1..] == others[1..] + rows;
      FindOpenSkips(others[1..], rows, key);
    }
  }

  /** A replay of one account works beside the other accounts' rows without touching them. */
  lemma {:induction false} ReplayBesideOthers(others: seq<Position>, rows: seq<Position>, fills: seq<Fill>,
                                              account: string)
    requires forall i | 0 <= i < |others| :: others[i].key.account != account
    requires OnlyAccount(fills, account)
    ensures AppliedAll(others + rows, fills) == others + AppliedAll(rows, fills)
    decreases fills
  {
    if fills != [] {
      FindOpenSkips(others, rows, fills[0].key);
      assert Applied(others + rows, fills[0]) == others + Applied(rows, fills[0]);
      ReplayBesideOthers(others, Applied(rows, fills[0]), fills[1..], account);
    }
  }

  lemma {:induction false} ReplayStaysInAccount(rows: seq<Position>, fills: seq<Fill>, account: string)
    requires OnlyAccount(fills, account)
    requires forall i | 0 <= i < |rows| :: rows[i].key.account == account
    ensures forall i | 0 <= i < |AppliedAll(rows, fills)| :: AppliedAll(rows, fills)[i].key.account == account
    decreases fills
  {
    if fills != [] {
      ReplayStaysInAccount(Applied(rows, fills[0]), fills[1..], account);
    }
  }

  lemma {:induction false} BuysStayInAccount(fills: seq<Fill>, account: string)
    requires OnlyAccount(fills, account)
    ensures forall i | 0 <= i < |OneRowPerBuy(fills)| :: OneRowPerBuy(fills)[i].key.account == account
  {
    if fills != [] {
      BuysStayInAccount(fills[1..], account);
    }
  }

  lemma {:induction false} WithoutSplits(others: seq<Position>, mine: seq<Position>, account: string)
    requires forall i | 0 <= i < |others| :: others[i].key.account != account
    requires forall i | 0 <= i < |mine| :: mine[i].key.account == account
    ensures Without(others + mine, account) == others
  {
    if others == [] {
      assert others + mine == mine;
      if mine != [] {
        WithoutSplits([], mine[1..], account);
        assert [] + mine[1..] == mine[1..];
      }
    } else {
      assert (others + mine)[1..] == others[1..] + mine;
      WithoutSplits(others[1..], mine, account);
    }
  }

  /** Every rebuild keeps the other accounts' rows, and rebuilding twice equals rebuilding once. */
  lemma RebuildTwice(rows: seq<Position>, orders: seq<Order>, account: string, autoflush: bool)
    ensures var once := Rebuilt(rows, orders, account, autoflush);
      && Without(once, account) == Without(rows, account)
      && Rebuilt(once, orders, account, autoflush) == once
  {
    var fills := ReplayFills(orders, account);
    var others := Without(rows, account);
    assert OnlyAccount(fills, account);
    ReplayBesideOthers(others, [], fills, account);
    assert others + [] == others;
    ReplayStaysInAccount([], fills, account);
    BuysStayInAccount(fills, account);
    WithoutSplits(others, if autoflush then AppliedAll([], fills) else OneRowPerBuy(fills), account);
  }

  // ----- the rebuild against the incremental ledger -----

  function IdsOf(orders: seq<Order>, ids: seq<nat>, key: Key): (r: seq<nat>)
    requires forall i | 0 <= i < |ids| :: ids[i] < |orders|
    ensures forall id :: id in r <==> id in ids && orders[id].key == key
    ensures forall i | 0 <= i < |r| :: r[i] < |orders|
  {
    if ids == [] then []
    else if orders[ids[0]].key == key then [ids[0]] + IdsOf(orders, ids[1..], key)
    else IdsOf(orders, ids[1..], key)
  }

  lemma FillsAtCons(orders: seq<Order>, id: nat, rest: seq<nat>)
    requires id < |orders| && forall i | 0 <= i < |rest| :: rest[i] < |orders|
    ensures FillsAt(orders, [id] + rest) == [FillFrom(orders[id])] + FillsAt(orders, rest)
    ensures FillFrom(orders[id]).key == orders[id].key
  {
  }

  lemma {:induction false} FillsOfIds(orders: seq<Order>, ids: seq<nat>, key: Key)
    requires forall i | 0 <= i < |ids| :: ids[i] < |orders|
    ensures FillsOf(FillsAt(orders, ids), key) == FillsAt(orders, IdsOf(orders, ids, key))
  {
    hide FillFrom, FillsAt;
    if ids != [] {
      FillsOfIds(orders, ids[1..], key);
      FillsAtCons(orders, ids[0], ids[1..]);
      assert ids == [ids[0]] + ids[1..];
      assert FillsAt(orders, ids)[1..] == FillsAt(orders, ids[1..]);
      FillsAtCons(orders, ids[0], IdsOf(orders, ids[1..], key));
    } else {
      assert FillsAt(orders, ids) == [];
    }
  }

  ghost predicate Ascending(ids: seq<nat>) {
    forall i, j | 0 <= i < j < |ids| :: ids[i] < ids[j]
  }

  /** Ids of one key are reported in the order the orders were created. */
  ghost predicate PerKeyAscending(orders: seq<Order>, ids: seq<nat>)
    requires forall i | 0 <= i < |ids| :: ids[i] < |orders|
  {
    forall i, j | 0 <= i < j < |ids| && orders[ids[i]].key == orders[ids[j]].key :: ids[i] < ids[j]
  }

  lemma {:induction false} IdsOfAscends(orders: seq<Order>, ids: seq<nat>, key: Key)
    requires forall i | 0 <= i < |ids| :: ids[i] < |orders|
    requires PerKeyAscending(orders, ids)
    ensures Ascending(IdsOf(orders, ids, key))
  {
    if ids != [] {
      var rest := IdsOf(orders, ids[1..], key);
      IdsOfAscends(orders, ids[1..], key);
      forall j | 0 <= j < |rest| && orders[ids[0]].key == key
        ensures ids[0] < rest[j]
      {
        assert rest[j] in ids[1..] && orders[rest[j]].key == key;
        var m :| 0 < m < |ids| && ids[m] == rest[j];
      }
    }
  }

  lemma TailWithin(a: seq<nat>, b: seq<nat>)
    requires Ascending(a) && a != [] && b != [] && a[0] == b[0]
    requires forall id | id in a :: id in b
    ensures forall id | id in a[1..] :: id in b[1..]
  {
    forall id | id in a[1..]
      ensures id in b[1..]
    {
      var i :| 0 <= i < |a[1..]| && a[1..][i] == id;
      assert a[i + 1] == id && id in b;
      var j :| 0 <= j < |b| && b[j] == id;
      assert b[1..][j - 1] == id;
    }
  }

  lemma {:induction false} AscendingUnique(a: seq<nat>, b: seq<nat>)
    requires Ascending(a) && Ascending(b)
    requires forall id :: id in a <==> id in b
    ensures a == b
  {
    if b != [] {
      assert b[0] in a;
    }
    if a != [] {
      assert a[0] in b && b[0] in a;
      assert a[0] == b[0];
      TailWithin(a, b);
      TailWithin(b, a);
      AscendingUnique(a[1..], b[1..]);
    }
  }

  /** No executed order reported a zero quantity or price. */
  ghost predicate NonZeroFills(orders: seq<Order>) {
    forall i | 0 <= i < |orders| && orders[i].status.Executed?
                && orders[i].filledQuantity.Some? && orders[i].averagePrice.Some? :: HasFill(orders[i])
  }

  lemma {:induction false} RowsOfWithout(rows: seq<Position>, key: Key)
    ensures RowsOf(Without(rows, key.account), key) == []
  {
    if rows != [] {
      RowsOfWithout(rows[1..], key);
    }
  }

  /** Fills that are non-zero and were reported, symbol by symbol, in creation order. */
  ghost predicate InCreationOrder(w: World) {
    && NonZeroFills(w.orders)
    && (forall i | 0 <= i < |w.reported| :: w.reported[i] < |w.orders|)
    && PerKeyAscending(w.orders, w.reported)
  }

  /** In every reachable state of that kind the replay takes the fills of a symbol in the order they were reported. */
  lemma SameFills(start: World, steps: seq<Step>, key: Key)
    requires Initial(start) && InCreationOrder(Run(start, steps))
    ensures var w := Run(start, steps);
      FillsOf(ReplayFills(w.orders, key.account), key) == FillsOf(FillsAt(w.orders, w.reported), key)
  {
    AtMostOnce(start, steps);
    var w := Run(start, steps);
    var replay := ReplayIds(w.orders, key.account);
    var mine, theirs := IdsOf(w.orders, w.reported, key), IdsOf(w.orders, replay, key);
    IdsOfAscends(w.orders, w.reported, key);
    IdsOfAscends(w.orders, replay, key);
    forall id
      ensures id in mine <==> id in theirs
    {
      if id in theirs {
        assert AppliesFill(w.orders[id]);
      }
    }
    AscendingUnique(mine, theirs);
    FillsOfIds(w.orders, w.reported, key);
    FillsOfIds(w.orders, replay, key);
  }

  /**
   * In every reachable state of the protocol whose fills are non-zero and were
   * reported, symbol by symbol, in creation order, a rebuild that sees its own
   * rows leaves exactly the rows incremental reporting built.
   */
  lemma RebuildMatchesReporting(start: World, steps: seq<Step>, key: Key)
    requires Initial(start) && InCreationOrder(Run(start, steps))
    ensures var w := Run(start, steps);
      RowsOf(Rebuilt(w.rows, w.orders, key.account, true), key) == RowsOf(w.rows, key)
  {
    hide Run, InCreationOrder, ReplayIds, FillsOf, RowsOf, Initial;
    AtMostOnce(start, steps);
    SameFills(start, steps, key);
    var w := Run(start, steps);
    ReplayProjects([], FillsAt(w.orders, w.reported), key);
    ReplayProjects(Without(w.rows, key.account), ReplayFills(w.orders, key.account), key);
    RowsOfWithout(w.rows, key);
    RowsOfNothing(key);
  }

  lemma RowsOfNothing(key: Key)
    ensures RowsOf([], key) == []
  {
  }

  /** And it does not raise: the fills it replays are those that reporting has booked. */
  lemma AccountNeverRaises(start: World, steps: seq<Step>, rows: seq<Position>, account: string)
    requires Initial(start) && InCreationOrder(Run(start, steps))
    ensures !AccountRaises(rows, Run(start, steps).orders, account, true)
  {
    hide Run, InCreationOrder, FillsOf, RowsOf, Initial, RaisesIn, Without;
    var w := Run(start, steps);
    var fills := ReplayFills(w.orders, account);
    if RaisesIn(Without(rows, account), fills) {
      var key := RaisesOnKey(Without(rows, account), fills);
      assert key.account == account;
      AtMostOnce(start, steps);
      SameFills(start, steps, key);
      RowsOfWithout(rows, key);
      RowsOfNothing(key);
      RaisesProjects([], FillsAt(w.orders, w.reported), key);
      assert false;
    }
  }

  lemma {:induction false} RebuildNeverRaises(start: World, steps: seq<Step>, rows: seq<Position>,
                                              accounts: seq<string>)
    requires Initial(start) && InCreationOrder(Run(start, steps))
    ensures !RebuildRaises(rows, Run(start, steps).orders, accounts, true)
    decreases accounts
  {
    hide Rebuilt, Run, Initial, InCreationOrder, AccountRaises;
    if accounts != [] {
      AccountNeverRaises(start, steps, rows, accounts[0]);
      RebuildNeverRaises(start, steps, Rebuilt(rows, Run(start, steps).orders, accounts[0], true), accounts[1..]);
    }
  }

  // ----- the rebuild as configured: queries do not see the session's own rows -----

  /** Quantity and entry price of every open row. */
  function Holdings(rows: seq<Position>): seq<(real, real)> {
    if rows == [] then []
    else (if rows[0].open then [(rows[0].quantity, rows[0].entryPrice)] else []) + Holdings(rows[1..])
  }

  lemma {:induction false} HoldingsOfOpen(rows: seq<Position>)
    ensures |Holdings(rows)| <= |rows|
    ensures (forall i | 0 <= i < |rows| :: rows[i].open) ==> |Holdings(rows)| == |rows|
    ensures (forall i | 0 <= i < |rows| :: !rows[i].open) ==> Holdings(rows) == []
  {
    if rows != [] {
      HoldingsOfOpen(rows[1..]);
    }
  }

  lemma {:induction false} OneHolding(rows: seq<Position>, key: Key)
    requires OneOpenPerKey(rows) && forall i | 0 <= i < |rows| :: rows[i].key == key
    ensures |Holdings(rows)| <= 1
  {
    if rows != [] {
      if rows[0].open {
        assert forall i | 0 <= i < |rows[1..]| :: !rows[1..][i].open;
        HoldingsOfOpen(rows[1..]);
      } else {
        OneHolding(rows[1..], key);
      }
    }
  }

  ghost predicate AllOf(fills: seq<Fill>, key: Key) {
    forall i | 0 <= i < |fills| :: fills[i].key == key && fills[i].quantity > 0.0
  }

  /** Nothing follows a buy. */
  ghost predicate NothingAfterBuy(fills: seq<Fill>) {
    forall i | 0 <= i < |fills| - 1 :: fills[i].side.Sell?
  }

  lemma {:induction false} SellsOnlyShrink(p: Position, fills: seq<Fill>)
    requires p.open && AllOf(fills, p.key) && fills != []
    requires forall i | 0 <= i < |fills| :: fills[i].side.Sell?
    ensures Holdings(AppliedAll([p], fills)) == []
         || (|Holdings(AppliedAll([p], fills))| == 1 && Holdings(AppliedAll([p], fills))[0].0 < p.quantity)
    decreases fills
  {
    var next := Applied([p], fills[0]);
    assert FindOpen([p], p.key) == Some(0);
    assert next == [Reduced(p, fills[0])];
    assert AppliedAll([p], fills) == AppliedAll(next, fills[1..]);
    if !next[0].open {
      SellsOnNothing(next, fills[1..]);
    } else if fills[1..] != [] {
      SellsOnlyShrink(next[0], fills[1..]);
    }
  }

  lemma {:induction false} SellsOnNothing(rows: seq<Position>, fills: seq<Fill>)
    requires forall i | 0 <= i < |rows| :: !rows[i].open
    requires forall i | 0 <= i < |fills| :: fills[i].side.Sell?
    ensures AppliedAll(rows, fills) == rows && Holdings(rows) == []
    decreases fills
  {
    HoldingsOfOpen(rows);
    if fills != [] {
      SellsOnNothing(rows, fills[1..]);
    }
  }

  lemma {:induction false} OneRowPerBuyCount(fills: seq<Fill>)
    ensures Holdings(OneRowPerBuy(fills)) == [] <==> forall i | 0 <= i < |fills| :: fills[i].side.Sell?
  {
    if fills != [] {
      OneRowPerBuyCount(fills[1..]);
    }
  }

  lemma {:induction false} ReplayKeepsKey(rows: seq<Position>, fills: seq<Fill>, key: Key)
    requires AllOf(fills, key) && forall i | 0 <= i < |rows| :: rows[i].key == key
    ensures forall i | 0 <= i < |AppliedAll(rows, fills)| :: AppliedAll(rows, fills)[i].key == key
    decreases fills
  {
    if fills != [] {
      ReplayKeepsKey(Applied(rows, fills[0]), fills[1..], key);
    }
  }

  /** One buy, then more fills of its key: the two replays already differ. */
  lemma BuyThenMore(f: Fill, rest: seq<Fill>)
    requires AllOf([f] + rest, f.key) && f.side.Buy? && rest != []
    ensures Holdings([Opened(f)] + OneRowPerBuy(rest)) != Holdings(AppliedAll([Opened(f)], rest))
  {
    hide Applied, OneRowPerBuy;
    var p := Opened(f);
    var folded := AppliedAll([p], rest);
    assert AllOf(rest, f.key) by {
      assert forall i | 0 <= i < |rest| :: ([f] + rest)[i + 1] == rest[i];
    }
    OneRowPerBuyCount(rest);
    OneOpenPerKeyKept([p], rest);
    ReplayKeepsKey([p], rest, f.key);
    OneHolding(folded, f.key);
    assert Holdings([p] + OneRowPerBuy(rest)) == [(p.quantity, p.entryPrice)] + Holdings(OneRowPerBuy(rest)) by {
      assert ([p] + OneRowPerBuy(rest))[1..] == OneRowPerBuy(rest);
    }
    if forall i | 0 <= i < |rest| :: rest[i].side.Sell? {
      SellsOnlyShrink(p, rest);
    }
  }

  lemma {:induction false} OneKeyExact(fills: seq<Fill>, key: Key)
    requires AllOf(fills, key)
    ensures Holdings(OneRowPerBuy(fills)) == Holdings(AppliedAll([], fills)) <==> NothingAfterBuy(fills)
    decreases fills
  {
    hide Holdings, Opened;
    if fills != [] {
      var f, rest := fills[0], fills[1..];
      assert fills == [f] + rest;
      if f.side.Sell? {
        assert Applied([], f) == [];
        OneKeyExact(rest, key);
        assert OneRowPerBuy(fills) == OneRowPerBuy(rest);
        assert AppliedAll([], fills) == AppliedAll([], rest);
        assert NothingAfterBuy(fills) <==> NothingAfterBuy(rest) by {
          assert forall i | 0 <= i < |rest| :: rest[i] == fills[i + 1];
        }
      } else {
        assert Applied([], f) == [Opened(f)];
        if rest != [] {
          BuyThenMore(f, rest);
          assert !NothingAfterBuy(fills) by { assert fills[0].side.Buy?; }
        } else {
          assert OneRowPerBuy(fills) == [Opened(f)] + OneRowPerBuy(rest) == [Opened(f)];
          assert AppliedAll([], fills) == AppliedAll([Opened(f)], rest) == [Opened(f)];
        }
      }
    }
  }

  lemma {:induction false} BuysOfKey(fills: seq<Fill>, key: Key)
    ensures RowsOf(OneRowPerBuy(fills), key) == OneRowPerBuy(FillsOf(fills, key))
    ensures forall i | 0 <= i < |FillsOf(fills, key)| ::
      FillsOf(fills, key)[i] in fills && FillsOf(fills, key)[i].key == key
  {
    if fills != [] {
      BuysOfKey(fills[1..], key);
      RowsOfAppend(if fills[0].side.Buy? then [Opened(fills[0])] else [], OneRowPerBuy(fills[1..]), key);
    }
  }

  /** The rows of one key after either kind of rebuild, from that key's fills alone. */
  lemma RebuiltRowsOf(rows: seq<Position>, orders: seq<Order>, key: Key)
    ensures var mine := FillsOf(ReplayFills(orders, key.account), key);
      && RowsOf(Rebuilt(rows, orders, key.account, false), key) == OneRowPerBuy(mine)
      && RowsOf(Rebuilt(rows, orders, key.account, true), key) == AppliedAll([], mine)
  {
    var fills, kept := ReplayFills(orders, key.account), Without(rows, key.account);
    BuysOfKey(fills, key);
    RowsOfWithout(rows, key);
    RowsOfAppend(kept, OneRowPerBuy(fills), key);
    assert [] + OneRowPerBuy(FillsOf(fills, key)) == OneRowPerBuy(FillsOf(fills, key));
    ReplayProjects(kept, fills, key);
  }

  /**
   * As configured, a rebuild gives the open quantities and entry prices of the
   * intended replay for a symbol exactly when none of its executed orders
   * follows a buy of it: a second buy becomes a second open row, and a sell
   * after a buy is lost.
   */
  lemma ConfiguredAgainstIntended(rows: seq<Position>, orders: seq<Order>, key: Key)
    requires forall i | 0 <= i < |orders| && Replayable(orders[i], key.account) ::
      Amount(orders[i].filledQuantity) > 0.0
    ensures Holdings(RowsOf(Rebuilt(rows, orders, key.account, false), key))
              == Holdings(RowsOf(Rebuilt(rows, orders, key.account, true), key))
        <==> NothingAfterBuy(FillsOf(ReplayFills(orders, key.account), key))
  {
    var fills := ReplayFills(orders, key.account);
    var mine := FillsOf(fills, key);
    RebuiltRowsOf(rows, orders, key);
    assert AllOf(mine, key) by {
      BuysOfKey(fills, key);
      forall i | 0 <= i < |mine|
        ensures mine[i].quantity > 0.0
      {
        assert mine[i] in fills;
      }
    }
    OneKeyExact(mine, key);
  }

  /**
   * Against the ledger that incremental reporting built: in every reachable state whose fills are positive and were
   * reported, symbol by symbol, in creation order, the configured rebuild gives the reported open quantities and
   * entry prices of a symbol if and only if none of its executed orders follows a buy of it.
   */
  lemma ConfiguredRebuildExact(start: World, steps: seq<Step>, key: Key)
    requires Initial(start) && InCreationOrder(Run(start, steps))
    requires forall o | o in Run(start, steps).orders && Replayable(o, key.account) :: Amount(o.filledQuantity) > 0.0
    ensures var w := Run(start, steps);
      Holdings(RowsOf(Rebuilt(w.rows, w.orders, key.account, false), key)) == Holdings(RowsOf(w.rows, key))
      <==> NothingAfterBuy(FillsOf(ReplayFills(w.orders, key.account), key))
  {
    hide Rebuilt, Holdings, NothingAfterBuy, RowsOf, ReplayFills, FillsOf, Replayable, Run;
    var w := Run(start, steps);
    RebuildMatchesReporting(start, steps, key);
    ConfiguredAgainstIntended(w.rows, w.orders, key);
  }

  /** A plain buy followed by a full sell: reporting leaves nothing open, the configured rebuild a phantom position. */
  lemma ConfiguredRebuildPhantom(buy: Order, sell: Order)
    requires Replayable(buy, buy.key.account) && buy.side.Buy? && HasFill(buy)
    requires Replayable(sell, buy.key.account) && sell.side.Sell? && sell.key == buy.key
    requires sell.filledQuantity == buy.filledQuantity
    ensures var orders := [buy, sell];
      && Holdings(RowsOf(Rebuilt([], orders, buy.key.account, true), buy.key)) == []
      && Holdings(RowsOf(Rebuilt([], orders, buy.key.account, false), buy.key))
           == [(buy.filledQuantity.value, buy.averagePrice.value)]
  {
    var orders, key := [buy, sell], buy.key;
    RebuiltRowsOf([], orders, key);
    var ids := ReplayIds(orders, key.account);
    AscendingUnique(ids, [0, 1]);
    var fills := ReplayFills(orders, key.account);
    var f, g := FillFrom(buy), FillFrom(sell);
    assert fills == [f, g];
    assert fills[1..] == [g] && [g][1..] == [];
    assert FillsOf([g], key) == [g];
    assert FillsOf(fills, key) == [f] + FillsOf(fills[1..], key) == [f, g];
    var lot := Opened(f);
    assert Applied([], f) == [lot] && Applied([lot], g) == [Reduced(lot, g)];
    assert AppliedAll([lot], [g]) == AppliedAll([Reduced(lot, g)], []);
    assert AppliedAll([], [f, g]) == AppliedAll([lot], [g]);
    assert OneRowPerBuy([g]) == [] && OneRowPerBuy([f, g]) == [lot];
  }
}
