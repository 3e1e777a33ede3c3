/**
 * Candle resampling. The reference is a plain group-by: sort the bucket starts,
 * and summarise the bars of each bucket. The live 4h builder, the in-place
 * chart fold and the replay's indexed view are proved against it.
 */
module Candles {
  import opened Common

  /** A bar or a candle; `t` is its opening time in seconds. */
  datatype Bar = Bar(t: int, open: real, high: real, low: real, close: real, volume: real)

  function Bucket(t: int, tf: int): int
    requires tf > 0
  {
    t / tf * tf
  }

  function Highs(rows: seq<Bar>): (r: seq<real>)
    ensures |r| == |rows|
  {
    seq(|rows|, i requires 0 <= i < |rows| => rows[i].high)
  }

  function Lows(rows: seq<Bar>): (r: seq<real>)
    ensures |r| == |rows|
  {
    seq(|rows|, i requires 0 <= i < |rows| => rows[i].low)
  }

  function Volumes(rows: seq<Bar>): (r: seq<real>)
    ensures |r| == |rows|
  {
    seq(|rows|, i requires 0 <= i < |rows| => rows[i].volume)
  }

  /** First open, highest high, lowest low, last close, total volume. */
  function CandleOf(start: int, rows: seq<Bar>): Bar
    requires rows != []
  {
    Bar(start, rows[0].open, MaxOf(Highs(rows)), MinOf(Lows(rows)), rows[|rows| - 1].close, Sum(Volumes(rows)))
  }

  /** The bars of one bucket, in their order. */
  function InBucket(bars: seq<Bar>, tf: int, start: int): seq<Bar>
    requires tf > 0
  {
    if bars == [] then []
    else
      var n := |bars| - 1;
      InBucket(bars[..n], tf, start) + (if Bucket(bars[n].t, tf) == start then [bars[n]] else [])
  }

  function InsertStart(starts: seq<int>, start: int): (r: seq<int>)
    requires Ascending(starts)
    ensures Ascending(r)
    ensures forall s :: s in r <==> s in starts || s == start
  {
    if starts == [] then [start]
    else
      var n := |starts| - 1;
      assert starts == starts[..n] + [starts[n]];
      if starts[n] < start then starts + [start]
      else if starts[n] == start then starts
      else
        var rest := InsertStart(starts[..n], start);
        assert forall i | 0 <= i < |rest| :: rest[i] in rest;
        rest + [starts[n]]
  }

  predicate Ascending(starts: seq<int>) {
    forall i, j | 0 <= i < j < |starts| :: starts[i] < starts[j]
  }

  /** The bucket starts that occur, sorted. */
  function Starts(bars: seq<Bar>, tf: int): (r: seq<int>)
    requires tf > 0
    ensures Ascending(r)
    ensures forall s :: s in r <==> exists i | 0 <= i < |bars| :: Bucket(bars[i].t, tf) == s
  {
    if bars == [] then []
    else
      var n := |bars| - 1;
      assert forall i | 0 <= i < n :: bars[..n][i] == bars[i];
      InsertStart(Starts(bars[..n], tf), Bucket(bars[n].t, tf))
  }

  lemma {:induction false} BucketNotEmpty(bars: seq<Bar>, tf: int, start: int)
    requires tf > 0
    ensures InBucket(bars, tf, start) != [] <==> exists i | 0 <= i < |bars| :: Bucket(bars[i].t, tf) == start
  {
    if bars != [] {
      var n := |bars| - 1;
      BucketNotEmpty(bars[..n], tf, start);
      assert forall i | 0 <= i < n :: bars[..n][i] == bars[i];
    }
  }

  /** The candle of a bucket; buckets without bars have none. */
  function BucketCandle(bars: seq<Bar>, tf: int, start: int): Bar
    requires tf > 0
  {
    var rows := InBucket(bars, tf, start);
    if rows == [] then Bar(start, 0.0, 0.0, 0.0, 0.0, 0.0) else CandleOf(start, rows)
  }

  /** The plain group-by. */
  function Resample(bars: seq<Bar>, tf: int): (r: seq<Bar>)
    requires tf > 0
    ensures |r| == |Starts(bars, tf)|
    ensures forall i | 0 <= i < |r| :: r[i] == BucketCandle(bars, tf, Starts(bars, tf)[i])
  {
    var starts := Starts(bars, tf);
    seq(|starts|, i requires 0 <= i < |starts| => BucketCandle(bars, tf, starts[i]))
  }

  lemma TailAmong(a: seq<int>, b: seq<int>)
    requires Ascending(a) && a != [] && b != [] && a[0] == b[0]
    requires forall s | s in a :: s in b
    ensures forall s | s in a[1..] :: s in b[1..]
  {
    forall s | s in a[1..]
      ensures s in b[1..]
    {
      var i :| 0 <= i < |a[1..]| && a[1..][i] == s;
      assert a[i + 1] == s && s in b;
      var j :| 0 <= j < |b| && b[j] == s;
      assert b[1..][j - 1] == s;
    }
  }

  lemma {:induction false} AscendingUnique(a: seq<int>, b: seq<int>)
    requires Ascending(a) && Ascending(b)
    requires forall s :: s in a <==> s in b
    ensures a == b
  {
    if b != [] {
      assert b[0] in b;
    }
    if a != [] {
      assert a[0] in a && b[0] in b;
      TailAmong(a, b);
      TailAmong(b, a);
      AscendingUnique(a[1..], b[1..]);
    }
  }

  /** A list of candles with the right starts and the right candle for each is the group-by. */
  lemma ResampleIs(bars: seq<Bar>, tf: int, candles: seq<Bar>, starts: seq<int>)
    requires tf > 0 && |candles| == |starts| && Ascending(starts)
    requires forall s :: s in starts <==> exists i | 0 <= i < |bars| :: Bucket(bars[i].t, tf) == s
    requires forall i | 0 <= i < |candles| :: candles[i] == BucketCandle(bars, tf, starts[i])
    ensures candles == Resample(bars, tf) && starts == Starts(bars, tf)
  {
    AscendingUnique(starts, Starts(bars, tf));
  }

  // ----- sorted() and the group-by loops -----

  method Pick<T>(s: set<T>) returns (t: T)
    requires s != {}
    ensures t in s
  {
    t :| t in s;
  }

  /** Python's sorted() on a set of times. */
  method SortTimes(times: set<int>) returns (sorted: seq<int>)
    ensures Ascending(sorted)
    ensures forall t :: t in sorted <==> t in times
  {
    sorted := [];
    var left := times;
    while left != {}
      invariant Ascending(sorted)
      invariant left <= times
      invariant forall t :: t in sorted <==> t in times && t !in left
      decreases |left|
    {
      var t := Pick(left);
      sorted := InsertStart(sorted, t);
      left := left - {t};
    }
  }

  function Rows(buckets: map<int, seq<Bar>>, start: int): seq<Bar> {
    if start in buckets then buckets[start] else []
  }

  lemma InBucketNext(bars: seq<Bar>, i: nat, tf: int, start: int)
    requires tf > 0 && i < |bars|
    ensures InBucket(bars[..i + 1], tf, start)
         == InBucket(bars[..i], tf, start) + (if Bucket(bars[i].t, tf) == start then [bars[i]] else [])
  {
    assert bars[..i + 1][..i] == bars[..i];
  }

  lemma NothingGrouped(tf: int)
    requires tf > 0
    ensures forall s :: InBucket([], tf, s) == []
  {
  }

  /** Appends every bar to its bucket, then summarises the buckets in order of their starts. */
  method GroupBars(bars: seq<Bar>, tf: int) returns (starts: seq<int>, candles: seq<Bar>)
    requires tf > 0
    ensures starts == Starts(bars, tf) && candles == Resample(bars, tf)
    ensures forall c | c in candles :: Summarises(c, bars, tf)
  {
    hide Bucket, CandleOf, InBucket, Summarises;
    AllSummarise(bars, tf);
    NothingGrouped(tf);
    var buckets: map<int, seq<Bar>> := map[];
    assert bars[..0] == [];
    for i := 0 to |bars|
      invariant forall s :: Rows(buckets, s) == InBucket(bars[..i], tf, s)
      invariant forall s | s in buckets :: buckets[s] != []
    {
      var start := Bucket(bars[i].t, tf);
      forall s
        ensures InBucket(bars[..i + 1], tf, s)
             == if start == s then InBucket(bars[..i], tf, s) + [bars[i]] else InBucket(bars[..i], tf, s)
      {
        InBucketNext(bars, i, tf, s);
        assert InBucket(bars[..i], tf, s) + [] == InBucket(bars[..i], tf, s);
      }
      ghost var before := buckets;
      buckets := buckets[start := Rows(buckets, start) + [bars[i]]];
      forall s
        ensures Rows(buckets, s) == InBucket(bars[..i + 1], tf, s)
      {
        assert Rows(before, s) == InBucket(bars[..i], tf, s);
      }
    }
    assert bars[..|bars|] == bars;
    starts := SortTimes(buckets.Keys);
    candles := [];
    for i := 0 to |starts|
      invariant |candles| == i
      invariant forall k | 0 <= k < i :: candles[k] == BucketCandle(bars, tf, starts[k])
    {
      assert starts[i] in starts;
      assert Rows(buckets, starts[i]) == InBucket(bars, tf, starts[i]);
      candles := candles + [CandleOf(starts[i], buckets[starts[i]])];
    }
    forall s
      ensures s in starts <==> exists i | 0 <= i < |bars| :: Bucket(bars[i].t, tf) == s
    {
      BucketNotEmpty(bars, tf, s);
      assert s in buckets <==> Rows(buckets, s) != [];
    }
    ResampleIs(bars, tf, candles, starts);
  }

  /** Python's `candles[-limit:]`; a limit of zero keeps everything. */
  function LastOnes(candles: seq<Bar>, limit: nat): seq<Bar> {
    if limit == 0 || limit >= |candles| then candles else candles[|candles| - limit..]
  }

  const FOUR_HOURS := 14400

  ghost function AnyOf<T>(s: set<T>): (t: T)
    requires s != {}
    ensures t in s
  {
    var t :| t in s;
    t
  }

  lemma {:induction false} LeastExists(keys: set<int>)
    requires keys != {}
    ensures exists t | t in keys :: forall u | u in keys :: t <= u
  {
    var some := AnyOf(keys);
    var others := keys - {some};
    if others != {} {
      LeastExists(others);
      var least :| least in others && forall u | u in others :: least <= u;
      assert forall u | u in keys :: u == some || u in others;
      if some <= least {
        assert forall u | u in keys :: some <= u;
      } else {
        assert least in keys && forall u | u in keys :: least <= u;
      }
    } else {
      assert keys == {some};
    }
  }

  ghost function SortedKeys(keys: set<int>): (r: seq<int>)
    ensures Ascending(r)
    ensures forall t :: t in r <==> t in keys
  {
    if keys == {} then []
    else
      LeastExists(keys);
      var t :| t in keys && forall u | u in keys :: t <= u;
      [t] + SortedKeys(keys - {t})
  }

  /** The hourly rows of the cache in order of time. */
  ghost function RowsOf(hourly: map<int, Bar>): (rows: seq<Bar>)
    ensures |rows| == |SortedKeys(hourly.Keys)|
    ensures forall i | 0 <= i < |rows| ::
      SortedKeys(hourly.Keys)[i] in hourly && rows[i] == hourly[SortedKeys(hourly.Keys)[i]]
  {
    var times := SortedKeys(hourly.Keys);
    assert forall i | 0 <= i < |times| :: times[i] in times;
    seq(|times|, i requires 0 <= i < |times| => hourly[times[i]])
  }

  /** The live feed's 4h candles, from its hourly cache. */
  method FourHourCandles(hourly: map<int, Bar>, limit: nat) returns (candles: seq<Bar>)
    requires forall t | t in hourly :: hourly[t].t == t
    ensures candles == LastOnes(Resample(RowsOf(hourly), FOUR_HOURS), limit)
    ensures forall c | c in candles :: Summarises(c, RowsOf(hourly), 14400)
  {
    hide Summarises, Resample, Ascending;
    var times := SortTimes(hourly.Keys);
    AscendingUnique(times, SortedKeys(hourly.Keys));
    ghost var rows := RowsOf(hourly);
    var sorted: seq<Bar> := [];
    for i := 0 to |times|
      invariant sorted == rows[..i]
    {
      sorted := sorted + [hourly[times[i]]];
    }
    assert rows[..|rows|] == rows;
    var _, all := GroupBars(sorted, FOUR_HOURS);
    candles := LastOnes(all, limit);
  }

  /** The cache that holds exactly these candles. */
  function CacheOf(candles: seq<Bar>): map<int, Bar> {
    if candles == [] then map[]
    else CacheOf(candles[..|candles| - 1])[candles[|candles| - 1].t := candles[|candles| - 1]]
  }

  lemma {:induction false} CacheHolds(candles: seq<Bar>)
    requires Ascending(TimesOf(candles))
    ensures forall t :: t in CacheOf(candles) <==> t in TimesOf(candles)
    ensures forall i | 0 <= i < |candles| ::
      candles[i].t in CacheOf(candles) && CacheOf(candles)[candles[i].t] == candles[i]
  {
    if candles != [] {
      var n := |candles| - 1;
      var before := candles[..n];
      assert TimesOf(candles) == TimesOf(before) + [candles[n].t];
      assert Ascending(TimesOf(before)) by {
        assert forall i | 0 <= i < n :: TimesOf(before)[i] == TimesOf(candles)[i];
      }
      CacheHolds(before);
      forall i | 0 <= i < n
        ensures CacheOf(candles)[candles[i].t] == candles[i]
      {
        assert TimesOf(candles)[i] < TimesOf(candles)[n];
        assert before[i] == candles[i];
      }
    }
  }

  /** Sorting such a cache gives the candles back. */
  lemma RowsOfCache(candles: seq<Bar>)
    requires Ascending(TimesOf(candles))
    ensures RowsOf(CacheOf(candles)) == candles
    ensures forall t | t in CacheOf(candles) :: CacheOf(candles)[t].t == t
  {
    CacheHolds(candles);
    var times := SortedKeys(CacheOf(candles).Keys);
    AscendingUnique(times, TimesOf(candles));
    assert forall i | 0 <= i < |candles| :: times[i] == candles[i].t;
  }

  function TimesOf(bars: seq<Bar>): (r: seq<int>)
    ensures |r| == |bars| && forall i | 0 <= i < |r| :: r[i] == bars[i].t
  {
    seq(|bars|, i requires 0 <= i < |bars| => bars[i].t)
  }

  // ----- the in-place fold -----

  /** One more bar folded into an existing candle. */
  function Extend(c: Bar, b: Bar): Bar {
    c.(high := Max(c.high, b.high), low := Min(c.low, b.low), close := b.close, volume := c.volume + b.volume)
  }

  lemma ExtendIsCandle(start: int, rows: seq<Bar>, b: Bar)
    ensures CandleOf(start, rows + [b]) == if rows == [] then b.(t := start) else Extend(CandleOf(start, rows), b)
  {
    assert Highs(rows + [b]) == Highs(rows) + [b.high];
    assert Lows(rows + [b]) == Lows(rows) + [b.low];
    assert Volumes(rows + [b]) == Volumes(rows) + [b.volume];
    MaxOfAppend(Highs(rows), b.high);
    MinOfAppend(Lows(rows), b.low);
    SumConcat(Volumes(rows), [b.volume]);
    assert [b.volume][1..] == [] && Sum([b.volume]) == b.volume;
  }

  // ----- what a candle is -----

  /** The `i`th bar falls into the bucket that starts at `start`. */
  predicate FallsIn(bars: seq<Bar>, tf: int, start: int, i: nat)
    requires tf > 0 && i < |bars|
  {
    bars[i].t / tf * tf == start
  }

  /** The open is that of the first bar of the bucket. */
  ghost predicate OpensAtFirst(c: Bar, bars: seq<Bar>, tf: int)
    requires tf > 0
  {
    exists i | 0 <= i < |bars| :: FallsIn(bars, tf, c.t, i) && c.open == bars[i].open
                                  && forall j | 0 <= j < i :: !FallsIn(bars, tf, c.t, j)
  }

  /** The close is that of the last. */
  ghost predicate ClosesAtLast(c: Bar, bars: seq<Bar>, tf: int)
    requires tf > 0
  {
    exists i | 0 <= i < |bars| :: FallsIn(bars, tf, c.t, i) && c.close == bars[i].close
                                  && forall j | i < j < |bars| :: !FallsIn(bars, tf, c.t, j)
  }

  /** The high is reached by one bar of the bucket and exceeded by none. */
  ghost predicate PeaksAtHigh(c: Bar, bars: seq<Bar>, tf: int)
    requires tf > 0
  {
    && (forall i | 0 <= i < |bars| && FallsIn(bars, tf, c.t, i) :: bars[i].high <= c.high)
    && (exists i | 0 <= i < |bars| :: FallsIn(bars, tf, c.t, i) && bars[i].high == c.high)
  }

  /** And the low from below. */
  ghost predicate BottomsAtLow(c: Bar, bars: seq<Bar>, tf: int)
    requires tf > 0
  {
    && (forall i | 0 <= i < |bars| && FallsIn(bars, tf, c.t, i) :: c.low <= bars[i].low)
    && (exists i | 0 <= i < |bars| :: FallsIn(bars, tf, c.t, i) && bars[i].low == c.low)
  }

  /** The volume of every bar that falls into the bucket, and zero for the others. */
  function VolumesIn(bars: seq<Bar>, tf: int, start: int): (r: seq<real>)
    requires tf > 0
    ensures |r| == |bars|
  {
    seq(|bars|, i requires 0 <= i < |bars| => if bars[i].t / tf * tf == start then bars[i].volume else 0.0)
  }

  ghost predicate Summarises(c: Bar, bars: seq<Bar>, tf: int)
    requires tf > 0
  {
    && OpensAtFirst(c, bars, tf) && ClosesAtLast(c, bars, tf) && PeaksAtHigh(c, bars, tf) && BottomsAtLow(c, bars, tf)
    && c.volume == Sum(VolumesIn(bars, tf, c.t))
  }

  /** One more bar of another bucket changes nothing. */
  lemma OtherBar(c: Bar, bars: seq<Bar>, tf: int, b: Bar)
    requires tf > 0 && b.t / tf * tf != c.t
    ensures OpensAtFirst(c, bars, tf) ==> OpensAtFirst(c, bars + [b], tf)
    ensures ClosesAtLast(c, bars, tf) ==> ClosesAtLast(c, bars + [b], tf)
    ensures PeaksAtHigh(c, bars, tf) ==> PeaksAtHigh(c, bars + [b], tf)
    ensures BottomsAtLow(c, bars, tf) ==> BottomsAtLow(c, bars + [b], tf)
  {
    var all, n := bars + [b], |bars|;
    assert !FallsIn(all, tf, c.t, n);
    forall i | 0 <= i < n
      ensures FallsIn(all, tf, c.t, i) <==> FallsIn(bars, tf, c.t, i)
    {
      assert all[i] == bars[i];
    }
    hide FallsIn;
  }

  /** One more bar of the bucket moves the close, and the high and the low if it goes beyond them. */
  lemma SameBar(c: Bar, bars: seq<Bar>, tf: int, b: Bar, next: Bar)
    requires tf > 0 && b.t / tf * tf == c.t == next.t
    requires next.open == c.open && next.close == b.close
    requires next.high == Max(c.high, b.high) && next.low == Min(c.low, b.low)
    ensures OpensAtFirst(c, bars, tf) ==> OpensAtFirst(next, bars + [b], tf)
    ensures ClosesAtLast(next, bars + [b], tf)
    ensures PeaksAtHigh(c, bars, tf) ==> PeaksAtHigh(next, bars + [b], tf)
    ensures BottomsAtLow(c, bars, tf) ==> BottomsAtLow(next, bars + [b], tf)
  {
    var all, n := bars + [b], |bars|;
    assert FallsIn(all, tf, c.t, n) && all[n] == b;
    forall i | 0 <= i < n
      ensures FallsIn(all, tf, c.t, i) <==> FallsIn(bars, tf, c.t, i)
    {
      assert all[i] == bars[i];
    }
    hide FallsIn;
  }

  /** The first bar of a bucket is its candle. */
  lemma FirstBar(bars: seq<Bar>, tf: int, b: Bar, c: Bar)
    requires tf > 0 && b.t / tf * tf == c.t && c == b.(t := c.t)
    requires forall i | 0 <= i < |bars| :: !FallsIn(bars, tf, c.t, i)
    ensures var all := bars + [b];
      OpensAtFirst(c, all, tf) && ClosesAtLast(c, all, tf) && PeaksAtHigh(c, all, tf) && BottomsAtLow(c, all, tf)
  {
    var all, n := bars + [b], |bars|;
    assert FallsIn(all, tf, c.t, n) && all[n] == b;
    forall i | 0 <= i < n
      ensures !FallsIn(all, tf, c.t, i)
    {
      assert all[i] == bars[i] && !FallsIn(bars, tf, c.t, i);
    }
    hide FallsIn;
  }

  lemma VolumeOfNext(bars: seq<Bar>, tf: int, start: int, b: Bar)
    requires tf > 0
    ensures Sum(VolumesIn(bars + [b], tf, start))
         == Sum(VolumesIn(bars, tf, start)) + (if b.t / tf * tf == start then b.volume else 0.0)
  {
    var last := if b.t / tf * tf == start then b.volume else 0.0;
    assert VolumesIn(bars + [b], tf, start) == VolumesIn(bars, tf, start) + [last];
    SumConcat(VolumesIn(bars, tf, start), [last]);
    assert [last][1..] == [] && Sum([last]) == last;
  }

  lemma {:induction false} NoVolume(bars: seq<Bar>, tf: int, start: int)
    requires tf > 0 && forall i | 0 <= i < |bars| :: !FallsIn(bars, tf, start, i)
    ensures Sum(VolumesIn(bars, tf, start)) == 0.0
  {
    if bars != [] {
      var n := |bars| - 1;
      forall i | 0 <= i < n
        ensures !FallsIn(bars[..n], tf, start, i)
      {
        assert !FallsIn(bars, tf, start, i);
      }
      NoVolume(bars[..n], tf, start);
      assert !FallsIn(bars, tf, start, n) && bars == bars[..n] + [bars[n]];
      VolumeOfNext(bars[..n], tf, start, bars[n]);
    }
  }

  lemma EmptyBucket(bars: seq<Bar>, tf: int, start: int)
    requires tf > 0
    ensures InBucket(bars, tf, start) == [] <==> forall i | 0 <= i < |bars| :: !FallsIn(bars, tf, start, i)
  {
    BucketNotEmpty(bars, tf, start);
    assert forall i | 0 <= i < |bars| :: FallsIn(bars, tf, start, i) <==> Bucket(bars[i].t, tf) == start;
    hide Bucket;
  }

  lemma {:induction false} BucketSummarises(bars: seq<Bar>, tf: int, start: int)
    requires tf > 0 && exists i | 0 <= i < |bars| :: FallsIn(bars, tf, start, i)
    ensures BucketCandle(bars, tf, start).t == start && Summarises(BucketCandle(bars, tf, start), bars, tf)
  {
    var n := |bars| - 1;
    var before, b := bars[..n], bars[n];
    assert bars == before + [b];
    assert forall i | 0 <= i < n :: FallsIn(before, tf, start, i) <==> FallsIn(bars, tf, start, i);
    assert FallsIn(bars, tf, start, n) <==> b.t / tf * tf == start == Bucket(b.t, tf);
    hide FallsIn, OpensAtFirst, ClosesAtLast, PeaksAtHigh, BottomsAtLow, BucketCandle, CandleOf, InBucket, Bucket;
    BucketCandleAppend(before, b, tf, start);
    VolumeOfNext(before, tf, start, b);
    EmptyBucket(before, tf, start);
    var candle := BucketCandle(bars, tf, start);
    if !FallsIn(bars, tf, start, n) {
      BucketSummarises(before, tf, start);
      OtherBar(candle, before, tf, b);
    } else if InBucket(before, tf, start) == [] {
      FirstBar(before, tf, b, candle);
      NoVolume(before, tf, start);
    } else {
      BucketSummarises(before, tf, start);
      SameBar(BucketCandle(before, tf, start), before, tf, b, candle);
    }
  }

  /**
   * Every candle of a group-by summarises the bars of its bucket: it opens with the first of them, closes with the
   * last, spans them from the lowest low to the highest high, and adds up their volumes. Every bar has its candle,
   * and they come in order.
   */
  lemma ResampleSummarises(bars: seq<Bar>, tf: int)
    requires tf > 0
    ensures forall k | 0 <= k < |Resample(bars, tf)| :: Summarises(Resample(bars, tf)[k], bars, tf)
    ensures forall i | 0 <= i < |bars| ::
      exists k | 0 <= k < |Resample(bars, tf)| :: Resample(bars, tf)[k].t == bars[i].t / tf * tf
    ensures forall j, k | 0 <= j < k < |Resample(bars, tf)| :: Resample(bars, tf)[j].t < Resample(bars, tf)[k].t
  {
    hide Summarises, BucketCandle;
    var candles, starts := Resample(bars, tf), Starts(bars, tf);
    forall k | 0 <= k < |candles|
      ensures candles[k].t == starts[k] && Summarises(candles[k], bars, tf)
    {
      assert starts[k] in starts;
      var i :| 0 <= i < |bars| && Bucket(bars[i].t, tf) == starts[k];
      assert FallsIn(bars, tf, starts[k], i);
      BucketSummarises(bars, tf, starts[k]);
    }
    forall i | 0 <= i < |bars|
      ensures exists k | 0 <= k < |candles| :: candles[k].t == bars[i].t / tf * tf
    {
      assert Bucket(bars[i].t, tf) in starts;
    }
  }

  lemma AllSummarise(bars: seq<Bar>, tf: int)
    requires tf > 0
    ensures forall c | c in Resample(bars, tf) :: Summarises(c, bars, tf)
  {
    hide Summarises, Resample;
    ResampleSummarises(bars, tf);
  }

  /** A row of the chart response; a missing price drops the row, a missing volume counts as zero. */
  datatype ChartRow = ChartRow(t: int, open: Option<real>, high: Option<real>, low: Option<real>,
                               close: Option<real>, volume: Option<real>)

  predicate Complete(r: ChartRow) {
    r.open.Some? && r.high.Some? && r.low.Some? && r.close.Some?
  }

  function BarFrom(r: ChartRow): Bar
    requires Complete(r)
  {
    Bar(r.t, r.open.value, r.high.value, r.low.value, r.close.value, if r.volume.Some? then r.volume.value else 0.0)
  }

  function CompleteBars(rows: seq<ChartRow>): seq<Bar> {
    if rows == [] then []
    else
      var n := |rows| - 1;
      CompleteBars(rows[..n]) + (if Complete(rows[n]) then [BarFrom(rows[n])] else [])
  }

  /** One row more: it counts exactly when all four prices are there. */
  lemma CompleteBarsAppend(rows: seq<ChartRow>, r: ChartRow)
    ensures CompleteBars([]) == []
    ensures CompleteBars(rows + [r]) == CompleteBars(rows)
      + match (r.open, r.high, r.low, r.close)
        case (Some(open), Some(high), Some(low), Some(close)) =>
          [Bar(r.t, open, high, low, close, match r.volume case Some(v) => v case None => 0.0)]
        case _ => []
  {
    assert (rows + [r])[..|rows|] == rows;
  }

  ghost predicate Folded(buckets: map<int, Bar>, bars: seq<Bar>, tf: int)
    requires tf > 0
  {
    forall s :: (s in buckets <==> InBucket(bars, tf, s) != [])
             && (s in buckets ==> buckets[s] == BucketCandle(bars, tf, s))
  }

  lemma FoldOne(buckets: map<int, Bar>, bars: seq<Bar>, tf: int, b: Bar)
    requires tf > 0 && Folded(buckets, bars, tf)
    ensures var start := Bucket(b.t, tf);
      Folded(buckets[start := if start in buckets then Extend(buckets[start], b) else b.(t := start)], bars + [b], tf)
  {
    hide CandleOf, Bucket, Extend, InBucket;
    var start := Bucket(b.t, tf);
    forall s
      ensures InBucket(bars + [b], tf, s)
           == if start == s then InBucket(bars, tf, s) + [b] else InBucket(bars, tf, s)
    {
      InBucketNext(bars + [b], |bars|, tf, s);
      assert (bars + [b])[..|bars|] == bars && (bars + [b])[..|bars| + 1] == bars + [b];
      assert InBucket(bars, tf, s) + [] == InBucket(bars, tf, s);
    }
    ExtendIsCandle(start, InBucket(bars, tf, start), b);
    assert InBucket(bars, tf, start) + [b] != [];
    assert [] + [b] == [b];
  }

  /** Folds each complete row into its candle as it comes, whatever the order of the rows. */
  method CandlesFromChart(rows: seq<ChartRow>, tf: int) returns (candles: seq<Bar>)
    requires tf > 0
    ensures candles == Resample(CompleteBars(rows), tf)
    ensures forall c | c in candles :: Summarises(c, CompleteBars(rows), tf)
  {
    hide Bucket, BucketCandle, Summarises;
    AllSummarise(CompleteBars(rows), tf);
    var buckets: map<int, Bar> := map[];
    assert rows[..0] == [];
    NothingFolded(tf);
    for i := 0 to |rows|
      invariant Folded(buckets, CompleteBars(rows[..i]), tf)
    {
      assert rows[..i + 1][..i] == rows[..i];
      if Complete(rows[i]) {
        var b := BarFrom(rows[i]);
        var start := Bucket(b.t, tf);
        FoldOne(buckets, CompleteBars(rows[..i]), tf, b);
        if start !in buckets {
          buckets := buckets[start := b.(t := start)];
        } else {
          buckets := buckets[start := Extend(buckets[start], b)];
        }
      } else {
        assert CompleteBars(rows[..i]) + [] == CompleteBars(rows[..i]);
      }
    }
    assert rows[..|rows|] == rows;
    var bars := CompleteBars(rows);
    var starts := SortTimes(buckets.Keys);
    candles := [];
    for i := 0 to |starts|
      invariant |candles| == i
      invariant forall k | 0 <= k < i :: candles[k] == BucketCandle(bars, tf, starts[k])
    {
      assert starts[i] in starts;
      candles := candles + [buckets[starts[i]]];
    }
    forall s
      ensures s in starts <==> exists i | 0 <= i < |bars| :: Bucket(bars[i].t, tf) == s
    {
      BucketNotEmpty(bars, tf, s);
    }
    ResampleIs(bars, tf, candles, starts);
  }

  lemma NothingFolded(tf: int)
    requires tf > 0
    ensures Folded(map[], CompleteBars([]), tf)
  {
  }

  // ----- resampling composes -----

  ghost predicate InOrder(bars: seq<Bar>) {
    forall i, j | 0 <= i < j < |bars| :: bars[i].t <= bars[j].t
  }

  /** The group-by of sorted bars, one bar at a time: extend the last candle or start a new one. */
  function Pushed(candles: seq<Bar>, b: Bar, tf: int): seq<Bar>
    requires tf > 0
  {
    var n := |candles|;
    if n > 0 && candles[n - 1].t == Bucket(b.t, tf) then candles[n - 1 := Extend(candles[n - 1], b)]
    else candles + [b.(t := Bucket(b.t, tf))]
  }

  lemma BucketMonotone(s: int, t: int, tf: int)
    requires tf > 0 && s <= t
    ensures Bucket(s, tf) <= Bucket(t, tf)
    ensures Bucket(t, tf) <= t < Bucket(t, tf) + tf
  {
    FloorOfDivision(s, tf);
    FloorOfDivision(t, tf);
    FloorsInOrder(s, t, tf, s / tf, t / tf);
  }

  /** `x` is the quotient of `t` by `d`, rounded down. */
  ghost predicate Floor(t: int, d: int, x: int) {
    x * d <= t < x * d + d
  }

  lemma FloorOfDivision(t: int, d: int)
    requires d > 0
    ensures Floor(t, d, t / d)
  {
  }

  lemma MultipleAtLeast(x: int, d: int)
    requires d > 0 && x >= 1
    ensures x * d >= d
  {
  }

  lemma FloorsInOrder(s: int, t: int, d: int, x: int, y: int)
    requires d > 0 && s <= t && Floor(s, d, x) && Floor(t, d, y)
    ensures x <= y && x * d <= y * d
  {
    assert (x - y) * d == x * d - y * d;
    if x > y {
      MultipleAtLeast(x - y, d);
    } else if x < y {
      MultipleAtLeast(y - x, d);
      assert (y - x) * d == y * d - x * d;
    }
  }

  lemma StartsAppend(bars: seq<Bar>, b: Bar, tf: int)
    requires tf > 0 && InOrder(bars + [b])
    ensures Starts(bars + [b], tf)
         == if Bucket(b.t, tf) in Starts(bars, tf) then Starts(bars, tf) else Starts(bars, tf) + [Bucket(b.t, tf)]
    ensures forall s | s in Starts(bars, tf) :: s <= Bucket(b.t, tf)
  {
    hide Bucket;
    var start, before := Bucket(b.t, tf), Starts(bars, tf);
    var after := bars + [b];
    assert forall i | 0 <= i < |bars| :: after[i] == bars[i] && after[i].t <= after[|bars|].t;
    forall s | s in before
      ensures s <= start
    {
      var i :| 0 <= i < |bars| && Bucket(bars[i].t, tf) == s;
      BucketMonotone(bars[i].t, b.t, tf);
    }
    var expected := if start in before then before else before + [start];
    assert Ascending(expected) by {
      assert forall i | 0 <= i < |before| :: before[i] in before;
    }
    forall s
      ensures s in expected <==> s in Starts(after, tf)
    {
      if s == start {
        assert Bucket(after[|bars|].t, tf) == s;
      }
    }
    AscendingUnique(expected, Starts(after, tf));
  }

  lemma LastStart(bars: seq<Bar>, b: Bar, tf: int)
    requires tf > 0 && InOrder(bars + [b])
    ensures var starts, start := Starts(bars, tf), Bucket(b.t, tf);
      && (start in starts <==> starts != [] && starts[|starts| - 1] == start)
      && (forall i | 0 <= i < |starts| - 1 :: starts[i] != start)
  {
    hide Bucket;
    StartsAppend(bars, b, tf);
    var starts, start := Starts(bars, tf), Bucket(b.t, tf);
    if start in starts {
      assert starts[|starts| - 1] in starts;
      var i :| 0 <= i < |starts| && starts[i] == start;
      assert i < |starts| - 1 ==> starts[i] < starts[|starts| - 1];
    }
    forall i | 0 <= i < |starts| - 1
      ensures starts[i] != start
    {
      assert starts[i] < starts[|starts| - 1] && starts[|starts| - 1] in starts;
    }
  }

  lemma BucketCandleAppend(bars: seq<Bar>, b: Bar, tf: int, s: int)
    requires tf > 0
    ensures var start := Bucket(b.t, tf);
      BucketCandle(bars + [b], tf, s)
        == if s != start then BucketCandle(bars, tf, s)
           else if InBucket(bars, tf, s) == [] then b.(t := s) else Extend(BucketCandle(bars, tf, s), b)
  {
    hide Bucket, CandleOf, InBucket, Extend;
    InBucketNext(bars + [b], |bars|, tf, s);
    assert (bars + [b])[..|bars|] == bars && (bars + [b])[..|bars| + 1] == bars + [b];
    assert InBucket(bars, tf, s) + [] == InBucket(bars, tf, s);
    ExtendIsCandle(s, InBucket(bars, tf, s), b);
    assert InBucket(bars, tf, s) + [b] != [];
  }

  lemma ResampleExtends(bars: seq<Bar>, b: Bar, tf: int)
    requires tf > 0 && InOrder(bars + [b]) && Bucket(b.t, tf) in Starts(bars, tf)
    ensures var candles := Resample(bars, tf);
      && candles != [] && candles[|candles| - 1].t == Bucket(b.t, tf)
      && Resample(bars + [b], tf) == candles[|candles| - 1 := Extend(candles[|candles| - 1], b)]
  {
    hide Bucket, BucketCandle, Extend, InBucket;
    var starts, start, n := Starts(bars, tf), Bucket(b.t, tf), |Starts(bars, tf)| - 1;
    StartsAppend(bars, b, tf);
    LastStart(bars, b, tf);
    BucketNotEmpty(bars, tf, start);
    CandleTime(bars, tf, start);
    var candles, after := Resample(bars, tf), Resample(bars + [b], tf);
    assert |after| == |starts| == |candles|;
    forall i | 0 <= i < |starts|
      ensures after[i] == if i == n then Extend(candles[n], b) else candles[i]
    {
      assert after[i] == BucketCandle(bars + [b], tf, starts[i]);
      BucketCandleAppend(bars, b, tf, starts[i]);
    }
    assert after == candles[n := Extend(candles[n], b)];
  }

  lemma ResampleOpens(bars: seq<Bar>, b: Bar, tf: int)
    requires tf > 0 && InOrder(bars + [b]) && Bucket(b.t, tf) !in Starts(bars, tf)
    ensures var candles := Resample(bars, tf);
      && (candles != [] ==> candles[|candles| - 1].t != Bucket(b.t, tf))
      && Resample(bars + [b], tf) == candles + [b.(t := Bucket(b.t, tf))]
  {
    hide Bucket, BucketCandle, Extend, InBucket, InOrder;
    var starts, start, n := Starts(bars, tf), Bucket(b.t, tf), |Starts(bars, tf)|;
    var candles, after := Resample(bars, tf), Resample(bars + [b], tf);
    StartsAppend(bars, b, tf);
    BucketNotEmpty(bars, tf, start);
    if starts != [] {
      CandleTime(bars, tf, starts[n - 1]);
      assert starts[n - 1] in starts;
    }
    assert Starts(bars + [b], tf) == starts + [start] && |after| == n + 1 && |candles| == n;
    forall i | 0 <= i < n
      ensures after[i] == candles[i]
    {
      assert starts[i] in starts;
      BucketCandleAppend(bars, b, tf, starts[i]);
    }
    BucketCandleAppend(bars, b, tf, start);
    assert after[n] == b.(t := start);
    hide Resample, Starts;
    assert after == candles + [b.(t := start)];
  }

  /** One more bar at the end of sorted bars extends the last candle or opens a new one. */
  lemma ResamplePushed(bars: seq<Bar>, b: Bar, tf: int)
    requires tf > 0 && InOrder(bars + [b])
    ensures Resample(bars + [b], tf) == Pushed(Resample(bars, tf), b, tf)
  {
    hide Bucket, BucketCandle, Extend, InBucket, Resample;
    if Bucket(b.t, tf) in Starts(bars, tf) {
      ResampleExtends(bars, b, tf);
    } else {
      ResampleOpens(bars, b, tf);
    }
  }

  lemma CandleTime(bars: seq<Bar>, tf: int, start: int)
    requires tf > 0
    ensures BucketCandle(bars, tf, start).t == start
  {
  }

  /** Folding a grown candle equals folding its parts. */
  lemma PushGrown(coarse: seq<Bar>, last: Bar, b: Bar, tf: int)
    requires tf > 0 && Bucket(last.t, tf) == Bucket(b.t, tf)
    ensures Pushed(coarse, Extend(last, b), tf) == Pushed(Pushed(coarse, last, tf), b, tf)
  {
  }

  lemma BucketOfBucket(t: int, fine: int, coarse: int)
    requires fine > 0 && coarse > 0 && coarse % fine == 0
    ensures Bucket(Bucket(t, fine), coarse) == Bucket(t, coarse)
  {
    var k, q, f := coarse / fine, t / coarse, t / fine;
    FloorOfDivision(t, coarse);
    FloorOfDivision(t, fine);
    MultipleFloors(t, fine, coarse, k, q, f);
    FloorOfDivision(f * fine, coarse);
    FloorsInOrder(f * fine, f * fine, coarse, f * fine / coarse, q);
    FloorsInOrder(f * fine, f * fine, coarse, q, f * fine / coarse);
  }

  lemma MultipleFloors(t: int, fine: int, coarse: int, k: int, q: int, f: int)
    requires fine > 0 && coarse > 0 && coarse == k * fine
    requires Floor(t, coarse, q) && Floor(t, fine, f)
    ensures Floor(f * fine, coarse, q)
  {
    var start := q * k;
    assert start * fine == q * coarse;
    assert Floor(q * coarse, fine, start);
    FloorsInOrder(q * coarse, t, fine, start, f);
  }

  lemma InOrderPrefix(bars: seq<Bar>, b: Bar)
    requires InOrder(bars + [b])
    ensures InOrder(bars)
  {
    assert forall i | 0 <= i < |bars| :: (bars + [b])[i] == bars[i];
  }

  lemma ResampleInOrder(bars: seq<Bar>, tf: int)
    requires tf > 0
    ensures InOrder(Resample(bars, tf))
  {
  }

  /** For sorted bars, aggregating to a fine timeframe and then to a multiple of it equals aggregating directly. */
  lemma {:induction false} ResampleComposes(bars: seq<Bar>, fine: int, coarse: int)
    requires fine > 0 && coarse > 0 && coarse % fine == 0 && InOrder(bars)
    ensures Resample(Resample(bars, fine), coarse) == Resample(bars, coarse)
  {
    hide Bucket, BucketCandle, InBucket, Extend;
    if bars == [] {
      assert Resample([], fine) == [];
    } else {
      var n := |bars| - 1;
      var init, b := bars[..n], bars[n];
      assert bars == init + [b];
      InOrderPrefix(init, b);
      ResampleComposes(init, fine, coarse);
      ResamplePushed(init, b, fine);
      ResamplePushed(init, b, coarse);
      ResampleInOrder(bars, fine);
      PushedComposes(Resample(init, fine), Resample(bars, fine), b, fine, coarse);
    }
  }

  lemma PushedComposes(before: seq<Bar>, after: seq<Bar>, b: Bar, fine: int, coarse: int)
    requires fine > 0 && coarse > 0 && coarse % fine == 0
    requires after == Pushed(before, b, fine) && InOrder(after)
    ensures Resample(after, coarse) == Pushed(Resample(before, coarse), b, coarse)
  {
    hide Bucket, BucketCandle, InBucket, Resample;
    var m, start := |before|, Bucket(b.t, fine);
    BucketOfBucket(b.t, fine, coarse);
    if m > 0 && before[m - 1].t == start {
      var init, last := before[..m - 1], before[m - 1];
      assert before == init + [last];
      assert after == init + [Extend(last, b)];
      ExtendKeepsOrder(init, last, b);
      ResamplePushed(init, last, coarse);
      ResamplePushed(init, Extend(last, b), coarse);
      PushGrown(Resample(init, coarse), last, b, coarse);
    } else {
      var first := b.(t := start);
      assert after == before + [first];
      ResamplePushed(before, first, coarse);
      PushRenamed(Resample(before, coarse), b, start, coarse);
    }
  }

  lemma ExtendKeepsOrder(init: seq<Bar>, last: Bar, b: Bar)
    requires InOrder(init + [Extend(last, b)])
    ensures InOrder(init + [last]) && Extend(last, b).t == last.t
  {
    var x, y := init + [Extend(last, b)], init + [last];
    assert forall i | 0 <= i < |x| :: x[i].t == y[i].t;
  }

  lemma PushRenamed(coarse: seq<Bar>, b: Bar, t: int, tf: int)
    requires tf > 0 && Bucket(t, tf) == Bucket(b.t, tf)
    ensures Pushed(coarse, b.(t := t), tf) == Pushed(coarse, b, tf)
  {
  }
}
