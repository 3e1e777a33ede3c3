/**
 * The drawdown stop: a halt is an event in a log and lasts seven days, after
 * which the drawdown is measured from the snapshots taken since it expired.
 * One log belongs to one account in one mode (simulated or live).
 */
module Drawdown {
  import opened Common
  import opened RiskEngine

  /** Seven days, in seconds. */
  const COOLDOWN := 604800

  datatype Snapshot = Snapshot(at: int, equity: real)

  datatype Log = Log(halts: seq<int>, snapshots: seq<Snapshot>)

  function MaxTime(times: seq<int>): Option<int> {
    if times == [] then None
    else match MaxTime(times[..|times| - 1])
      case None => Some(times[|times| - 1])
      case Some(t) => Some(if times[|times| - 1] >= t then times[|times| - 1] else t)
  }

  /** Is a stop that started at `halt` still running? */
  predicate Running(halt: Option<int>, now: int) {
    halt.Some? && now < halt.value + COOLDOWN
  }

  function NoteHalt(log: Log, now: int): Log {
    if Running(MaxTime(log.halts), now) then log else log.(halts := log.halts + [now])
  }

  function Equities(snapshots: seq<Snapshot>): (r: seq<real>)
    ensures |r| == |snapshots| && forall i | 0 <= i < |r| :: r[i] == snapshots[i].equity
  {
    seq(|snapshots|, i requires 0 <= i < |snapshots| => snapshots[i].equity)
  }

  function Since(snapshots: seq<Snapshot>, from: int): (r: seq<Snapshot>)
    ensures forall s :: s in r <==> s in snapshots && s.at >= from
  {
    if snapshots == [] then []
    else
      var rest := Since(snapshots[1..], from);
      assert snapshots == [snapshots[0]] + snapshots[1..];
      if snapshots[0].at >= from then [snapshots[0]] + rest else rest
  }

  /** The snapshots the peak is taken over. */
  function Window(snapshots: seq<Snapshot>, halt: Option<int>, now: int): seq<Snapshot> {
    if halt.Some? && !Running(halt, now) then Since(snapshots, halt.value + COOLDOWN) else snapshots
  }

  function PeakOf(snapshots: seq<Snapshot>): Option<real> {
    if snapshots == [] then None else Some(MaxOf(Equities(snapshots)))
  }

  function DrawdownPeak(log: Log, now: int): Option<real> {
    PeakOf(Window(log.snapshots, MaxTime(log.halts), now))
  }

  /** Python's `peak or equity`, then the larger of that and the equity. */
  function MeasuredPeak(peak: Option<real>, equity: real): real {
    if peak.Some? && peak.value != 0.0 then Max(peak.value, equity) else equity
  }

  /** The equity of the newest snapshot; of equally new ones, the last stored. */
  function LatestSnapshot(snapshots: seq<Snapshot>): (r: Option<Snapshot>)
    ensures r.Some? <==> snapshots != []
    ensures r.Some? ==> r.value in snapshots && forall s | s in snapshots :: s.at <= r.value.at
  {
    if snapshots == [] then None
    else
      var n := |snapshots| - 1;
      assert snapshots == snapshots[..n] + [snapshots[n]];
      match LatestSnapshot(snapshots[..n])
      case None => Some(snapshots[n])
      case Some(s) => Some(if snapshots[n].at >= s.at then snapshots[n] else s)
  }

  function EquityOf(log: Log, fallback: real): real {
    if log.snapshots == [] then fallback else LatestSnapshot(log.snapshots).value.equity
  }

  class DrawdownStore {
    var halts: seq<int>
    var snapshots: seq<Snapshot>

    function View(): Log
      reads this
    {
      Log(halts, snapshots)
    }

    constructor ()
      ensures View() == Log([], [])
    {
      halts, snapshots := [], [];
    }

    /** Records the start of a stop; breaches during a running stop do not move it. */
    method NoteDrawdownHalt(now: int)
      modifies this`halts
      ensures View() == NoteHalt(old(View()), now)
    {
      var latest := MaxTime(halts);
      if latest.Some? && now < latest.value + COOLDOWN {
        return;
      }
      halts := halts + [now];
    }

    method SaveSnapshot(at: int, equity: real)
      modifies this`snapshots
      ensures View() == old(View()).(snapshots := old(snapshots) + [Snapshot(at, equity)])
    {
      snapshots := snapshots + [Snapshot(at, equity)];
    }
  }

  // ----- runs of ticks and snapshots -----

  /** `pnl` and `start` are the daily figures, which may be anything. */
  datatype Event = Snap(at: int, equity: real) | Tick(at: int, pnl: real, start: real)

  function StateAt(log: Log, now: int, fallback: real, pnl: real, start: real): Portfolio {
    var equity := EquityOf(log, fallback);
    Portfolio(equity, MeasuredPeak(DrawdownPeak(log, now), equity), equity, [], pnl, start, 0, None, map[])
  }

  /** The limit a tick breaches, if any. */
  function BreachAt(log: Log, e: Event, fallback: real, limits: AccountLimits): Option<Limit>
    requires e.Tick?
  {
    Breach(StateAt(log, e.at, fallback, e.pnl, e.start), limits)
  }

  function Next(log: Log, e: Event, fallback: real, limits: AccountLimits): Log {
    match e
    case Snap(at, equity) => log.(snapshots := log.snapshots + [Snapshot(at, equity)])
    case Tick(at, _, _) =>
      if BreachAt(log, e, fallback, limits) == Some(MaxDrawdown) then NoteHalt(log, at) else log
  }

  function Run(log: Log, events: seq<Event>, fallback: real, limits: AccountLimits): Log
    decreases events
  {
    if events == [] then log else Run(Next(log, events[0], fallback, limits), events[1..], fallback, limits)
  }

  // ----- halts are a cooldown apart -----

  ghost predicate Apart(halts: seq<int>) {
    forall i, j | 0 <= i < j < |halts| :: halts[j] - halts[i] >= COOLDOWN
  }

  lemma {:induction false} MaxTimeFacts(times: seq<int>)
    ensures MaxTime(times).None? <==> times == []
    ensures times != [] ==> MaxTime(times).value in times
    ensures forall i | 0 <= i < |times| :: times[i] <= MaxTime(times).value
  {
    if times != [] {
      var n := |times| - 1;
      MaxTimeFacts(times[..n]);
      assert forall i | 0 <= i < n :: times[i] == times[..n][i];
    }
  }

  lemma NoteHaltApart(log: Log, now: int)
    requires Apart(log.halts)
    ensures Apart(NoteHalt(log, now).halts)
  {
  }

  /** In every run, whatever the clock does, recorded halts are at least the cooldown apart. */
  lemma {:induction false} HaltsApart(log: Log, events: seq<Event>, fallback: real, limits: AccountLimits)
    requires Apart(log.halts)
    ensures Apart(Run(log, events, fallback, limits).halts)
    decreases events
  {
    if events != [] {
      NoteHaltApart(log, events[0].at);
      HaltsApart(Next(log, events[0], fallback, limits), events[1..], fallback, limits);
    }
  }

  // ----- while a stop runs, nothing is forgotten -----

  /** While a stop runs the drawdown peak bounds every snapshot ever stored, and is one of them. */
  lemma PeakRemembersAll(log: Log, now: int)
    requires Running(MaxTime(log.halts), now) && log.snapshots != []
    ensures var peak := DrawdownPeak(log, now);
      && peak.Some?
      && (forall s | s in log.snapshots :: s.equity <= peak.value)
      && (exists s :: s in log.snapshots && s.equity == peak.value)
  {
    var es := Equities(log.snapshots);
    var peak := MaxOf(es);
    forall s | s in log.snapshots
      ensures s.equity <= peak
    {
      var i :| 0 <= i < |log.snapshots| && log.snapshots[i] == s;
      assert es[i] in es;
    }
    var j :| 0 <= j < |es| && es[j] == peak;
    assert log.snapshots[j] in log.snapshots;
  }

  /** So does the peak a tick measures against, unless the best equity was exactly zero and the current one is below. */
  lemma MeasuredPeakRemembersExactly(log: Log, now: int, equity: real)
    requires Running(MaxTime(log.halts), now) && log.snapshots != []
    ensures var peak := DrawdownPeak(log, now);
      (forall s | s in log.snapshots :: s.equity <= MeasuredPeak(peak, equity))
        <==> !(peak == Some(0.0) && equity < 0.0)
  {
    PeakRemembersAll(log, now);
  }

  /** For example, a stored equity of zero and a lower one now, while a stop runs: the peak is the current equity. */
  lemma ZeroPeakForgotten(at: int, equity: real)
    requires equity < 0.0
    ensures var log := Log([at], [Snapshot(at, 0.0)]);
      && Running(MaxTime(log.halts), at)
      && MeasuredPeak(DrawdownPeak(log, at), equity) == equity < log.snapshots[0].equity
  {
    var log := Log([at], [Snapshot(at, 0.0)]);
    assert MaxTime([at]) == Some(at);
    assert Equities(log.snapshots) == [0.0];
  }

  // ----- which snapshots the peak is taken over -----

  /** A snapshot counts while some halt is running; and once all are over, from seven days after every one of them. */
  ghost predicate Counts(log: Log, now: int, s: Snapshot) {
    && s in log.snapshots
    && ((exists h | h in log.halts :: now < h + 604800) || (forall h | h in log.halts :: h + 604800 <= s.at))
  }

  lemma HaltsByNewest(halts: seq<int>, now: int, at: int)
    ensures Running(MaxTime(halts), now) <==> exists h | h in halts :: now < h + 604800
    ensures halts != [] ==>
      (MaxTime(halts).value + 604800 <= at <==> forall h | h in halts :: h + 604800 <= at)
  {
    MaxTimeFacts(halts);
    forall h | h in halts
      ensures h <= MaxTime(halts).value
    {
      var i :| 0 <= i < |halts| && halts[i] == h;
    }
  }

  lemma WindowCounts(log: Log, now: int, s: Snapshot)
    ensures s in Window(log.snapshots, MaxTime(log.halts), now) <==> Counts(log, now, s)
  {
    hide MaxTime;
    MaxTimeFacts(log.halts);
    HaltsByNewest(log.halts, now, s.at);
  }

  /** The largest equity of some snapshots. */
  lemma PeakOfSome(snapshots: seq<Snapshot>)
    ensures PeakOf(snapshots).None? <==> snapshots == []
    ensures PeakOf(snapshots).Some? ==> forall s | s in snapshots :: s.equity <= PeakOf(snapshots).value
    ensures PeakOf(snapshots).Some? ==> exists s :: s in snapshots && s.equity == PeakOf(snapshots).value
  {
    if snapshots != [] {
      var es := Equities(snapshots);
      forall s | s in snapshots
        ensures s.equity <= MaxOf(es)
      {
        var i :| 0 <= i < |snapshots| && snapshots[i] == s;
        assert es[i] in es;
      }
      var j :| 0 <= j < |es| && es[j] == MaxOf(es);
      assert snapshots[j] in snapshots;
    }
  }

  /**
   * The drawdown peak bounds every snapshot that counts and is one of them, and there is none exactly when none
   * counts: with no halt and during one that is all of them, after the last one those taken since it was over.
   */
  lemma PeakIsOfCounted(log: Log, now: int)
    ensures var peak := DrawdownPeak(log, now);
      && (peak.None? <==> forall s :: !Counts(log, now, s))
      && (peak.Some? ==> forall s | Counts(log, now, s) :: s.equity <= peak.value)
      && (peak.Some? ==> exists s :: Counts(log, now, s) && s.equity == peak.value)
  {
    hide Counts, Window, MaxTime;
    var w := Window(log.snapshots, MaxTime(log.halts), now);
    forall s
      ensures s in w <==> Counts(log, now, s)
    {
      WindowCounts(log, now, s);
    }
    PeakOfSome(w);
    if w != [] {
      assert w[0] in w;
    }
  }

  /** The allowed part of a level has been lost. */
  predicate Lost(level: real, equity: real, limit: real) {
    level - equity >= limit * level
  }

  lemma FallInMoney(equity: real, peak: real, limit: real)
    requires peak > 0.0
    ensures DrawdownOf(equity, peak) >= limit <==> Lost(peak, equity, limit)
  {
    QuotientOrder(peak - equity, peak, limit);
  }

  /** The same part of a higher level is lost from there too. */
  lemma HigherFallsMore(equity: real, level: real, peak: real, limit: real)
    requires equity >= 0.0 && 0.0 < level <= peak && Lost(level, equity, limit)
    ensures Lost(peak, equity, limit)
  {
    ProductOrder(limit, 1.0, level);
    ProductNonNegative(1.0 - limit, peak - level);
    assert peak - limit * peak - (level - limit * level) == (1.0 - limit) * (peak - level);
  }

  lemma NothingLost(level: real, limit: real)
    requires level > 0.0 && limit > 0.0
    ensures !Lost(level, level, limit)
  {
    ProductSign(limit, level);
  }

  /** A tick's stop on drawdown, by the peak it measures against. */
  lemma BreachByPeak(log: Log, tick: Event, fallback: real, limits: AccountLimits)
    requires tick.Tick? && EquityOf(log, fallback) >= 0.0 && limits.maxDrawdown > 0.0
    ensures var equity, peak := EquityOf(log, fallback), DrawdownPeak(log, tick.at);
      BreachAt(log, tick, fallback, limits) == Some(MaxDrawdown) <==>
      (!(limits.floor.Some? && equity <= limits.floor.value)
       && peak.Some? && peak.value > 0.0 && Lost(peak.value, equity, limits.maxDrawdown))
  {
    hide EquityOf, DrawdownPeak, Lost, DailyLossOf;
    var equity, peak := EquityOf(log, fallback), DrawdownPeak(log, tick.at);
    var measured := MeasuredPeak(peak, equity);
    if measured > 0.0 {
      FallInMoney(equity, measured, limits.maxDrawdown);
      NothingLost(measured, limits.maxDrawdown);
    }
    if peak.Some? && peak.value > 0.0 {
      LostBelowOnly(peak.value, equity, limits.maxDrawdown);
    }
    if equity == 0.0 {
      NoLevel(equity);
    }
    hide DrawdownOf;
  }

  lemma NoLevel(equity: real)
    ensures DrawdownOf(equity, 0.0) == 0.0
  {
  }

  lemma LostBelowOnly(level: real, equity: real, limit: real)
    requires level > 0.0 && limit > 0.0
    ensures Lost(level, equity, limit) ==> equity < level
  {
    ProductSign(limit, level);
  }

  /**
   * In every state, a tick stops the account on its drawdown exactly when the floor is not reached and its equity has
   * lost the allowed part of some positive level that counts.
   */
  lemma DrawdownStopsExactly(log: Log, tick: Event, fallback: real, limits: AccountLimits)
    requires tick.Tick? && EquityOf(log, fallback) >= 0.0 && limits.maxDrawdown > 0.0
    ensures var equity := EquityOf(log, fallback);
      BreachAt(log, tick, fallback, limits) == Some(MaxDrawdown) <==>
      (!(limits.floor.Some? && equity <= limits.floor.value)
       && exists s :: Counts(log, tick.at, s) && s.equity > 0.0 && Lost(s.equity, equity, limits.maxDrawdown))
  {
    PeakIsOfCounted(log, tick.at);
    BreachByPeak(log, tick, fallback, limits);
    hide Counts, DrawdownPeak, BreachAt, EquityOf, Lost;
    var equity, peak := EquityOf(log, fallback), DrawdownPeak(log, tick.at);
    forall s | Counts(log, tick.at, s) && s.equity > 0.0 && Lost(s.equity, equity, limits.maxDrawdown)
      ensures peak.Some? && peak.value > 0.0 && Lost(peak.value, equity, limits.maxDrawdown)
    {
      HigherFallsMore(equity, s.equity, peak.value, limits.maxDrawdown);
    }
  }

  /**
   * The stop works again: seven days after the last halt, an account that has lost the allowed part of a positive
   * level stored since then breaches at the next tick, and that tick records another halt.
   */
  lemma StopsAgain(log: Log, s: Snapshot, tick: Event, fallback: real, limits: AccountLimits)
    requires tick.Tick? && EquityOf(log, fallback) >= 0.0 && limits.maxDrawdown > 0.0
    requires limits.floor.Some? ==> EquityOf(log, fallback) > limits.floor.value
    requires forall h | h in log.halts :: h + 604800 <= s.at
    requires forall h | h in log.halts :: h + 604800 <= tick.at
    requires s in log.snapshots && s.equity > 0.0
    requires Lost(s.equity, EquityOf(log, fallback), limits.maxDrawdown)
    ensures BreachAt(log, tick, fallback, limits) == Some(MaxDrawdown)
    ensures Next(log, tick, fallback, limits) == log.(halts := log.halts + [tick.at])
  {
    hide EquityOf, BreachAt, Lost;
    assert Counts(log, tick.at, s);
    DrawdownStopsExactly(log, tick, fallback, limits);
    HaltsByNewest(log.halts, tick.at, s.at);
  }

  /** The equity a tick sees is that of a newest snapshot, and the given one only when there is none. */
  lemma EquityIsNewest(log: Log, fallback: real)
    ensures log.snapshots == [] ==> EquityOf(log, fallback) == fallback
    ensures log.snapshots != [] ==> exists s | s in log.snapshots ::
      s.equity == EquityOf(log, fallback) && forall t | t in log.snapshots :: t.at <= s.at
  {
    if log.snapshots != [] {
      var s := LatestSnapshot(log.snapshots).value;
      assert s in log.snapshots && s.equity == EquityOf(log, fallback);
    }
  }

  // ----- an account frozen in cash -----

  /** Cash `equity` since a stop that began at `halt`, still in drawdown against its best equity ever. */
  ghost predicate Frozen(log: Log, halt: int, equity: real, limits: AccountLimits) {
    && MaxTime(log.halts) == Some(halt)
    && log.snapshots != [] && LatestSnapshot(log.snapshots).value.equity == equity >= 0.0
    && (forall s | s in log.snapshots && s.at >= halt + COOLDOWN :: s.equity == equity)
    && (limits.floor.Some? ==> equity > limits.floor.value)
    && (exists s :: s in log.snapshots && s.equity > 0.0 && DrawdownOf(equity, s.equity) >= limits.maxDrawdown)
  }

  /** Drawdown from a higher peak is no smaller. */
  lemma HigherPeakDeeper(equity: real, low: real, high: real)
    requires 0.0 <= equity && 0.0 < low <= high
    ensures DrawdownOf(equity, low) <= DrawdownOf(equity, high)
  {
  }

  lemma DrawdownPositive(equity: real, peak: real)
    requires peak >= equity >= 0.0 && DrawdownOf(equity, peak) > 0.0
    ensures peak > equity
  {
  }

  lemma FrozenBreaches(log: Log, halt: int, equity: real, limits: AccountLimits, tick: Event, fallback: real)
    requires Frozen(log, halt, equity, limits) && tick.Tick? && tick.at < halt + COOLDOWN
    ensures BreachAt(log, tick, fallback, limits) == Some(MaxDrawdown)
  {
    hide DrawdownOf;
    PeakRemembersAll(log, tick.at);
    var peak := DrawdownPeak(log, tick.at).value;
    var s :| s in log.snapshots && s.equity > 0.0 && DrawdownOf(equity, s.equity) >= limits.maxDrawdown;
    assert peak >= s.equity;
    var latest := LatestSnapshot(log.snapshots).value;
    assert latest in log.snapshots && latest.equity <= peak;
    HigherPeakDeeper(equity, s.equity, peak);
  }

  lemma FrozenReleases(log: Log, halt: int, equity: real, limits: AccountLimits, tick: Event, fallback: real)
    requires Frozen(log, halt, equity, limits) && tick.Tick? && tick.at >= halt + COOLDOWN
    requires limits.maxDrawdown > 0.0
    ensures BreachAt(log, tick, fallback, limits) != Some(MaxDrawdown)
  {
  }

  lemma FrozenStays(log: Log, halt: int, equity: real, limits: AccountLimits, e: Event, fallback: real)
    requires Frozen(log, halt, equity, limits)
    requires e.Snap? ==> e.equity == equity && e.at >= halt
    requires e.Snap? ==> forall s | s in log.snapshots :: s.at <= e.at
    requires e.Tick? ==> e.at < halt + COOLDOWN
    ensures Frozen(Next(log, e, fallback, limits), halt, equity, limits)
  {
    var next := Next(log, e, fallback, limits);
    if e.Snap? {
      assert forall s | s in log.snapshots :: s in next.snapshots;
      assert forall s | s in next.snapshots :: s in log.snapshots || s == Snapshot(e.at, e.equity);
      assert next.snapshots[..|log.snapshots|] == log.snapshots;
    } else {
      assert next == log;
    }
  }

  /** Events in clock order, all after `from`, with every snapshot showing the same equity. */
  ghost predicate CashOnly(events: seq<Event>, from: int, until: int, equity: real) {
    && (forall i | 0 <= i < |events| :: from <= events[i].at)
    && (forall i | 0 <= i < |events| && events[i].Tick? :: events[i].at < until)
    && (forall i | 0 <= i < |events| && events[i].Snap? :: events[i].equity == equity)
    && (forall i, j | 0 <= i < j < |events| :: events[i].at <= events[j].at)
  }

  ghost predicate AllBefore(log: Log, at: int) {
    forall s | s in log.snapshots :: s.at <= at
  }

  lemma {:induction false} FrozenRun(log: Log, halt: int, equity: real, events: seq<Event>,
                                     fallback: real, limits: AccountLimits)
    requires Frozen(log, halt, equity, limits)
    requires CashOnly(events, halt, halt + COOLDOWN, equity)
    requires events != [] ==> AllBefore(log, events[0].at)
    ensures Frozen(Run(log, events, fallback, limits), halt, equity, limits)
    ensures Run(log, events, fallback, limits).halts == log.halts
    decreases events
  {
    hide Frozen;
    if events != [] {
      var e, next := events[0], Next(log, events[0], fallback, limits);
      FrozenStays(log, halt, equity, limits, e, fallback);
      assert next.halts == log.halts by { FrozenHalts(log, halt, equity, limits, e.at); }
      if |events| > 1 {
        assert AllBefore(next, events[1].at);
      }
      FrozenRun(next, halt, equity, events[1..], fallback, limits);
    }
  }

  lemma FrozenHalts(log: Log, halt: int, equity: real, limits: AccountLimits, now: int)
    requires Frozen(log, halt, equity, limits)
    ensures now < halt + COOLDOWN ==> NoteHalt(log, now) == log
  {
  }

  /** A tick that records a drawdown halt freezes the account's log. */
  lemma HaltFreezes(log: Log, tick: Event, fallback: real, limits: AccountLimits)
    requires tick.Tick? && log.snapshots != [] && AllBefore(log, tick.at) && limits.maxDrawdown > 0.0
    requires BreachAt(log, tick, fallback, limits) == Some(MaxDrawdown)
    requires !Running(MaxTime(log.halts), tick.at)
    requires EquityOf(log, fallback) >= 0.0
    ensures Frozen(Next(log, tick, fallback, limits), tick.at, EquityOf(log, fallback), limits)
  {
    hide DrawdownOf, DailyLossOf;
    var next := Next(log, tick, fallback, limits);
    NewestHalt(log, tick.at);
    var equity := EquityOf(log, fallback);
    var window := Window(log.snapshots, MaxTime(log.halts), tick.at);
    var peak := MeasuredPeak(PeakOf(window), equity);
    DrawdownPositive(equity, peak);
    var es := Equities(window);
    assert peak == MaxOf(es) > equity;
    var i :| 0 <= i < |es| && es[i] == peak;
    assert window[i] in window;
    assert window[i] in log.snapshots && window[i].equity == peak > 0.0;
    assert LatestSnapshot(log.snapshots).value.at <= tick.at;
  }

  lemma NewestHalt(log: Log, now: int)
    requires !Running(MaxTime(log.halts), now)
    ensures NoteHalt(log, now).halts == log.halts + [now] && NoteHalt(log, now).snapshots == log.snapshots
    ensures MaxTime(NoteHalt(log, now).halts) == Some(now)
  {
  }

  /**
   * After a recorded halt at `tick`, an account that only holds cash is in
   * drawdown breach at every tick of the next seven days, records no second
   * halt, and is out of drawdown breach at the first tick after them.
   */
  lemma FrozenInCash(log: Log, tick: Event, events: seq<Event>, last: Event, fallback: real, limits: AccountLimits)
    requires tick.Tick? && last.Tick? && log.snapshots != [] && AllBefore(log, tick.at) && limits.maxDrawdown > 0.0
    requires BreachAt(log, tick, fallback, limits) == Some(MaxDrawdown)
    requires !Running(MaxTime(log.halts), tick.at)
    requires EquityOf(log, fallback) >= 0.0
    requires CashOnly(events, tick.at, tick.at + COOLDOWN, EquityOf(log, fallback))
    ensures var after := Run(Next(log, tick, fallback, limits), events, fallback, limits);
      && after.halts == log.halts + [tick.at]
      && (last.at < tick.at + COOLDOWN ==> BreachAt(after, last, fallback, limits) == Some(MaxDrawdown))
      && (last.at >= tick.at + COOLDOWN ==> BreachAt(after, last, fallback, limits) != Some(MaxDrawdown))
  {
    hide Frozen;
    var equity := EquityOf(log, fallback);
    var next := Next(log, tick, fallback, limits);
    HaltFreezes(log, tick, fallback, limits);
    FrozenRun(next, tick.at, equity, events, fallback, limits);
    var after := Run(next, events, fallback, limits);
    if last.at < tick.at + COOLDOWN {
      FrozenBreaches(after, tick.at, equity, limits, last, fallback);
    } else {
      FrozenReleases(after, tick.at, equity, limits, last, fallback);
    }
  }

  // ----- the replay's single halt variable -----

  datatype Replay = Replay(haltAt: Option<int>, history: seq<Snapshot>)

  function ReplayNote(r: Replay, now: int): Replay {
    if r.haltAt.None? || now >= r.haltAt.value + COOLDOWN then r.(haltAt := Some(now)) else r
  }

  /** The replay always counts the current equity in. */
  function ReplayPeak(r: Replay, now: int, equity: real): real {
    MaxOf(Equities(Window(r.history, r.haltAt, now)) + [equity])
  }

  class ReplayStore {
    var drawdownHaltAt: Option<int>
    var equityHistory: seq<Snapshot>

    function View(): Replay
      reads this
    {
      Replay(drawdownHaltAt, equityHistory)
    }

    constructor ()
      ensures View() == Replay(None, [])
    {
      drawdownHaltAt, equityHistory := None, [];
    }

    /** In the replay's new mode; the old mode records nothing. */
    method NoteDrawdownHalt(now: int)
      modifies this`drawdownHaltAt
      ensures View() == ReplayNote(old(View()), now)
    {
      if drawdownHaltAt.None? || now >= drawdownHaltAt.value + COOLDOWN {
        drawdownHaltAt := Some(now);
      }
    }
  }

  datatype StoreCall = Save(at: int, equity: real) | Note(at: int)

  function LogAfter(log: Log, calls: seq<StoreCall>): Log
    decreases calls
  {
    if calls == [] then log
    else LogAfter(match calls[0]
      case Save(at, equity) => log.(snapshots := log.snapshots + [Snapshot(at, equity)])
      case Note(at) => NoteHalt(log, at), calls[1..])
  }

  function ReplayAfter(r: Replay, calls: seq<StoreCall>): Replay
    decreases calls
  {
    if calls == [] then r
    else ReplayAfter(match calls[0]
      case Save(at, equity) => r.(history := r.history + [Snapshot(at, equity)])
      case Note(at) => ReplayNote(r, at), calls[1..])
  }

  /** The one variable is the newest halt of the log, after every sequence of calls. */
  lemma {:induction false} ReplayTracksLog(log: Log, r: Replay, calls: seq<StoreCall>)
    requires r == Replay(MaxTime(log.halts), log.snapshots)
    ensures ReplayAfter(r, calls) == Replay(MaxTime(LogAfter(log, calls).halts), LogAfter(log, calls).snapshots)
    decreases calls
  {
    if calls != [] {
      if calls[0].Note? {
        var at := calls[0].at;
        MaxTimeFacts(log.halts);
        assert (log.halts + [at])[..|log.halts|] == log.halts;
        ReplayTracksLog(NoteHalt(log, at), ReplayNote(r, at), calls[1..]);
      } else {
        var s := Snapshot(calls[0].at, calls[0].equity);
        ReplayTracksLog(log.(snapshots := log.snapshots + [s]), r.(history := r.history + [s]), calls[1..]);
      }
    }
  }

  /** Both stores measure the same peak, unless the best counted equity is exactly zero and the current one negative. */
  lemma ReplayPeaksExactly(calls: seq<StoreCall>, now: int, equity: real)
    ensures var log := LogAfter(Log([], []), calls);
      (ReplayPeak(ReplayAfter(Replay(None, []), calls), now, equity) == MeasuredPeak(DrawdownPeak(log, now), equity))
        <==> !(DrawdownPeak(log, now) == Some(0.0) && equity < 0.0)
  {
    ReplayTracksLog(Log([], []), Replay(None, []), calls);
    var log := LogAfter(Log([], []), calls);
    MaxOfAppend(Equities(Window(log.snapshots, MaxTime(log.halts), now)), equity);
  }
  /** For example, one stored equity of zero and a lower one now. */
  lemma ReplayPeaksDiffer(at: int, equity: real)
    requires equity < 0.0
    ensures var calls := [Save(at, 0.0)];
      ReplayPeak(ReplayAfter(Replay(None, []), calls), at, equity)
      != MeasuredPeak(DrawdownPeak(LogAfter(Log([], []), calls), at), equity)
  {
    var calls := [Save(at, 0.0)];
    assert calls[1..] == [];
    var log := Log([], [Snapshot(at, 0.0)]);
    assert LogAfter(Log([], []), calls) == LogAfter(log, []) == log;
    assert Equities(log.snapshots) == [0.0];
    ReplayPeaksExactly(calls, at, equity);
  }
}
