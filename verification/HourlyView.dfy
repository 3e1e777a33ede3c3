/**
 * The replay's view of history: candles built once and indexed by binary
 * search, queried at a moment for what the live feed would show then.
 */
module HourlyView {
  import opened Common
  import opened Candles

  /** bisect.bisect_left on a sorted list: how many elements come before `x`. */
  function BisectLeft(a: seq<int>, x: int): (r: nat)
    ensures r <= |a|
    ensures forall i | 0 <= i < r :: a[i] < x
    ensures r < |a| ==> a[r] >= x
  {
    if a == [] || a[0] >= x then 0 else 1 + BisectLeft(a[1..], x)
  }

  /** bisect.bisect_right: how many elements are at most `x`. */
  function BisectRight(a: seq<int>, x: int): (r: nat)
    ensures r <= |a|
    ensures forall i | 0 <= i < r :: a[i] <= x
    ensures r < |a| ==> a[r] > x
  {
    BisectLeft(a, x + 1)
  }

  /** The bars that ended by `now`. */
  function Ended(bars: seq<Bar>, barSeconds: int, now: int): seq<Bar> {
    if bars == [] then []
    else
      var n := |bars| - 1;
      Ended(bars[..n], barSeconds, now) + (if bars[n].t + barSeconds <= now then [bars[n]] else [])
  }

  /** The last `limit` candles, none for a limit of zero. */
  function LastN(candles: seq<Bar>, limit: nat): seq<Bar> {
    if limit >= |candles| then candles else candles[|candles| - limit..]
  }

  function LastClose(bars: seq<Bar>): Option<real> {
    if bars == [] then None else Some(bars[|bars| - 1].close)
  }

  /** Bars in order, each opening on the bar grid, with whole bars per candle. */
  ghost predicate Aligned(bars: seq<Bar>, tf: int, barSeconds: int) {
    && barSeconds > 0 && tf > 0 && tf % barSeconds == 0
    && InOrder(bars)
    && forall i | 0 <= i < |bars| :: bars[i].t % barSeconds == 0
  }

  /** The last ended bar belongs to the candle that is still forming. */
  predicate InCurrent(ended: seq<Bar>, tf: int, now: int)
    requires tf > 0
  {
    ended != [] && ended[|ended| - 1].t >= Bucket(now, tf)
  }

  /**
   * What a query shows, from the ended bars alone: the last `limit` candles of their group-by; and for a limit of
   * zero, which a negative slice bound cannot express, the forming candle if there is one.
   */
  function Answer(ended: seq<Bar>, tf: int, now: int, limit: nat): seq<Bar>
    requires tf > 0
  {
    LastN(Resample(ended, tf), if limit == 0 && InCurrent(ended, tf, now) then 1 else limit)
  }

  class View {
    const tf: int
    const barSeconds: int
    const bars: seq<Bar>
    var barTimes: seq<int>
    var hourStarts: seq<int>
    var hourly: seq<Bar>

    ghost predicate Valid()
      reads this
    {
      && tf > 0
      && barTimes == TimesOf(bars)
      && hourStarts == Starts(bars, tf)
      && hourly == Resample(bars, tf)
    }

    constructor (bars: seq<Bar>, tf: int, barSeconds: int)
      requires tf > 0
      ensures Valid() && this.bars == bars && this.tf == tf && this.barSeconds == barSeconds
    {
      this.bars, this.tf, this.barSeconds := bars, tf, barSeconds;
      barTimes := TimesOf(bars);
      hourStarts, hourly := [], [];
      new;
      hourStarts, hourly := GroupBars(bars, tf);
    }

    /** Closed candles from the index, plus the forming one built from its bars so far. */
    method At(now: int, limit: nat) returns (candles: seq<Bar>, price: Option<real>)
      requires Valid()
      ensures Aligned(bars, tf, barSeconds) ==>
        && price == LastClose(Ended(bars, barSeconds, now))
        && candles == Answer(Ended(bars, barSeconds, now), tf, now, limit)
        && ((candles == LastN(Resample(Ended(bars, barSeconds, now), tf), limit))
            <==> (limit > 0 || !Forming(bars, tf, barSeconds, now)))
        && (forall c | c in candles :: Summarises(c, Ended(bars, barSeconds, now), tf))
    {
      hide *;
      ViewShape();
      FormingPartIs(bars, tf, barSeconds, now);
      ghost var aligned := Aligned(bars, tf, barSeconds);
      if aligned {
        LookupIsGroupBy(bars, tf, barSeconds, now, limit);
        LookupIsAnswer(bars, tf, barSeconds, now, limit);
        PriceIsLastClose(bars, tf, barSeconds, now);
        AnswerSummarises(Ended(bars, barSeconds, now), tf, now, limit);
      }
      var ended := BisectRight(barTimes, now - barSeconds);
      if ended == 0 {
        if aligned {
          NothingEnded(bars, tf, barSeconds, now, limit);
        }
        return [], None;
      }
      var currentHour := now / tf * tf;
      var closed := BisectLeft(hourStarts, currentHour);
      var firstInHour := BisectLeft(barTimes, currentHour);
      candles := hourly[(if closed < limit then 0 else closed - limit)..closed];
      if firstInHour < ended {
        candles := candles + [CandleOf(currentHour, bars[firstInHour..ended])];
      } else {
        assert candles + [] == candles;
      }
      candles := LastOnes(candles, limit);
      price := Some(bars[ended - 1].close);
    }

    lemma ViewShape()
      requires Valid()
      ensures tf > 0 && |hourly| == |hourStarts| && |barTimes| == |bars|
      ensures barTimes == TimesOf(bars) && hourStarts == Starts(bars, tf) && hourly == Resample(bars, tf)
    {
    }
  }

  /** What a query shows are candles of the ended bars. */
  lemma AnswerSummarises(ended: seq<Bar>, tf: int, now: int, limit: nat)
    requires tf > 0
    ensures forall c | c in Answer(ended, tf, now, limit) :: Summarises(c, ended, tf)
  {
    hide Summarises, Resample, InCurrent;
    AllSummarise(ended, tf);
  }

  /** The ended bars are those whose time is up, in their order. */
  lemma EndedAppend(bars: seq<Bar>, b: Bar, barSeconds: int, now: int)
    ensures Ended([], barSeconds, now) == []
    ensures Ended(bars + [b], barSeconds, now)
         == if b.t + barSeconds <= now then Ended(bars, barSeconds, now) + [b] else Ended(bars, barSeconds, now)
  {
    assert (bars + [b])[..|bars|] == bars;
  }

  /** Some bar of the current candle has ended by now. */
  ghost predicate Forming(bars: seq<Bar>, tf: int, barSeconds: int, now: int)
    requires tf > 0
  {
    BisectLeft(TimesOf(bars), Bucket(now, tf)) < BisectRight(TimesOf(bars), now - barSeconds)
  }

  /** Taking the last ones before and after appending at most one candle. */
  lemma LastOfLast(closed: seq<Bar>, forming: seq<Bar>, limit: nat)
    requires |forming| <= 1
    ensures LastOnes(LastN(closed, limit) + forming, limit) == LastN(closed + forming, limit)
      <==> limit > 0 || forming == []
  {
  }

  lemma {:induction false} EndedOf(bars: seq<Bar>, barSeconds: int, now: int, n: nat)
    requires n <= |bars|
    requires forall i | 0 <= i < n :: bars[i].t + barSeconds <= now
    requires forall i | n <= i < |bars| :: bars[i].t + barSeconds > now
    ensures Ended(bars, barSeconds, now) == bars[..n]
  {
    if bars != [] {
      var k := |bars| - 1;
      EndedOf(bars[..k], barSeconds, now, if n == |bars| then k else n);
      if n == |bars| {
        assert bars[..k] + [bars[k]] == bars[..n];
      } else {
        assert bars[..k][..n] == bars[..n];
      }
    }
  }

  lemma EndedIsPrefix(bars: seq<Bar>, barSeconds: int, now: int)
    requires InOrder(bars)
    ensures Ended(bars, barSeconds, now) == bars[..BisectRight(TimesOf(bars), now - barSeconds)]
  {
    var times := TimesOf(bars);
    var n := BisectRight(times, now - barSeconds);
    forall i | n <= i < |bars|
      ensures bars[i].t + barSeconds > now
    {
      assert times[n] <= times[i];
    }
    EndedOf(bars, barSeconds, now, n);
  }

  lemma {:induction false} InBucketSplits(a: seq<Bar>, b: seq<Bar>, tf: int, s: int)
    requires tf > 0
    ensures InBucket(a + b, tf, s) == InBucket(a, tf, s) + InBucket(b, tf, s)
  {
    if b == [] {
      assert a + b == a;
    } else {
      var n := |b| - 1;
      InBucketSplits(a, b[..n], tf, s);
      assert (a + b)[..|a + b| - 1] == a + b[..n];
    }
  }

  lemma {:induction false} AllInBucket(bars: seq<Bar>, tf: int, s: int)
    requires tf > 0
    ensures (forall i | 0 <= i < |bars| :: Bucket(bars[i].t, tf) == s) ==> InBucket(bars, tf, s) == bars
    ensures (forall i | 0 <= i < |bars| :: Bucket(bars[i].t, tf) != s) ==> InBucket(bars, tf, s) == []
  {
    if bars != [] {
      AllInBucket(bars[..|bars| - 1], tf, s);
    }
  }

  /** Bars before the current bucket are exactly those of earlier buckets. */
  lemma BeforeBucket(t: int, now: int, tf: int)
    requires tf > 0
    ensures t < Bucket(now, tf) <==> Bucket(t, tf) < Bucket(now, tf)
    ensures Bucket(now, tf) <= t < Bucket(now, tf) + tf ==> Bucket(t, tf) == Bucket(now, tf)
  {
    FloorOfDivision(t, tf);
    FloorOfDivision(now, tf);
    var q := now / tf;
    if q * tf <= t < q * tf + tf {
      FloorsInOrder(t, t, tf, t / tf, q);
      FloorsInOrder(t, t, tf, q, t / tf);
    } else if t < q * tf {
      FloorsInOrder(t, now, tf, t / tf, q);
    } else {
      FloorsInOrder(q * tf, t, tf, q, t / tf);
      assert Floor(q * tf, tf, q);
      FloorsInOrder(q * tf, t, tf, q, t / tf);
    }
  }

  /** A bar that opens before the current bucket has ended by now. */
  lemma AlignedEnds(t: int, now: int, tf: int, barSeconds: int)
    requires barSeconds > 0 && tf > 0 && tf % barSeconds == 0 && t % barSeconds == 0
    requires t < Bucket(now, tf)
    ensures t + barSeconds <= now
  {
    var k, q, x := tf / barSeconds, now / tf, t / barSeconds;
    FloorOfDivision(now, tf);
    assert tf == k * barSeconds && t == x * barSeconds;
    assert q * tf == (q * k) * barSeconds;
    assert ((q * k) - x) * barSeconds == q * tf - t;
    if q * k - x >= 1 {
      MultipleAtLeast(q * k - x, barSeconds);
    } else {
      NonPositiveMultiple(q * k - x, barSeconds);
    }
  }

  lemma NonPositiveMultiple(x: int, d: int)
    requires d > 0 && x <= 0
    ensures x * d <= 0
  {
  }

  /** The index lookup is the group-by of the bars that have ended. */
  lemma AtIsGroupBy(bars: seq<Bar>, tf: int, barSeconds: int, now: int)
    requires Aligned(bars, tf, barSeconds)
    ensures var current := Bucket(now, tf);
      var ended, first := BisectRight(TimesOf(bars), now - barSeconds), BisectLeft(TimesOf(bars), current);
      var closed := BisectLeft(Starts(bars, tf), current);
      && InOrder(bars)
      && first <= ended
      && Resample(bars[..ended], tf)
           == Resample(bars, tf)[..closed] + (if first < ended then [CandleOf(current, bars[first..ended])] else [])
  {
    hide Bucket, CandleOf, Resample, Starts, InBucket;
    var times, current := TimesOf(bars), Bucket(now, tf);
    var ended, first := BisectRight(times, now - barSeconds), BisectLeft(times, current);
    forall i | 0 <= i < first
      ensures bars[i].t + barSeconds <= now
    {
      AlignedEnds(bars[i].t, now, tf, barSeconds);
    }
    assert ended < |bars| ==> bars[ended].t + barSeconds > now;
    assert first <= ended;
    ClosedCandles(bars, tf, now);
    if first < ended {
      FormingCandle(bars, tf, barSeconds, now);
    } else {
      assert bars[..ended] == bars[..first];
    }
  }

  /** The indexed candles before the current bucket are the group-by of the bars before it. */
  lemma ClosedCandles(bars: seq<Bar>, tf: int, now: int)
    requires tf > 0 && InOrder(bars)
    ensures var current := Bucket(now, tf);
      Resample(bars, tf)[..BisectLeft(Starts(bars, tf), current)]
        == Resample(bars[..BisectLeft(TimesOf(bars), current)], tf)
  {
    hide Bucket, BucketCandle;
    var times, starts, current := TimesOf(bars), Starts(bars, tf), Bucket(now, tf);
    var first, closed := BisectLeft(times, current), BisectLeft(starts, current);
    var head, tail := bars[..first], bars[first..];
    assert bars == head + tail;
    BucketsAround(bars, tf, now);
    forall s
      ensures s in starts[..closed] <==> exists i | 0 <= i < |head| :: Bucket(head[i].t, tf) == s
    {
      EarlyStart(bars, tf, current, first, s);
    }
    forall i | 0 <= i < closed
      ensures Resample(bars, tf)[i] == BucketCandle(head, tf, starts[i])
    {
      SameBucketCandle(head, tail, tf, starts[i]);
    }
    ResampleIs(head, tf, Resample(bars, tf)[..closed], starts[..closed]);
  }

  lemma BucketsAround(bars: seq<Bar>, tf: int, now: int)
    requires tf > 0 && InOrder(bars)
    ensures var first := BisectLeft(TimesOf(bars), Bucket(now, tf));
      && (forall i | 0 <= i < first :: Bucket(bars[i].t, tf) < Bucket(now, tf))
      && (forall i | first <= i < |bars| :: Bucket(bars[i].t, tf) >= Bucket(now, tf))
      && (forall i | 0 <= i < |bars[first..]| :: Bucket(bars[first..][i].t, tf) >= Bucket(now, tf))
  {
    hide Bucket;
    var times, first := TimesOf(bars), BisectLeft(TimesOf(bars), Bucket(now, tf));
    forall i | first <= i < |bars|
      ensures Bucket(bars[i].t, tf) >= Bucket(now, tf)
    {
      assert times[first] <= times[i];
      BeforeBucket(bars[i].t, now, tf);
    }
    forall i | 0 <= i < first
      ensures Bucket(bars[i].t, tf) < Bucket(now, tf)
    {
      assert times[i] < Bucket(now, tf);
      BeforeBucket(bars[i].t, now, tf);
    }
  }

  lemma SameBucketCandle(head: seq<Bar>, tail: seq<Bar>, tf: int, s: int)
    requires tf > 0 && forall i | 0 <= i < |tail| :: Bucket(tail[i].t, tf) != s
    ensures BucketCandle(head + tail, tf, s) == BucketCandle(head, tf, s)
  {
    hide Bucket, CandleOf, InBucket;
    InBucketSplits(head, tail, tf, s);
    AllInBucket(tail, tf, s);
    assert InBucket(head, tf, s) + [] == InBucket(head, tf, s);
  }

  /** The starts before `current` are the starts of the bars before it. */
  lemma EarlyStartHasBar(bars: seq<Bar>, tf: int, current: int, first: nat, s: int)
    requires tf > 0 && first <= |bars|
    requires forall i | first <= i < |bars| :: Bucket(bars[i].t, tf) >= current
    requires s in Starts(bars, tf) && s < current
    ensures exists i | 0 <= i < |bars[..first]| :: Bucket(bars[..first][i].t, tf) == s
  {
    hide Bucket;
    var i :| 0 <= i < |bars| && Bucket(bars[i].t, tf) == s;
    assert i < first;
    assert bars[..first][i] == bars[i];
  }

  lemma BarHasEarlyStart(bars: seq<Bar>, tf: int, current: int, i: nat)
    requires tf > 0 && i < |bars| && Bucket(bars[i].t, tf) < current
    ensures Bucket(bars[i].t, tf) in Starts(bars, tf)[..BisectLeft(Starts(bars, tf), current)]
  {
    hide Bucket, BisectLeft;
    var starts, s := Starts(bars, tf), Bucket(bars[i].t, tf);
    var closed := BisectLeft(starts, current);
    assert s in starts;
    var k :| 0 <= k < |starts| && starts[k] == s;
    assert forall j | closed < j < |starts| :: starts[closed] < starts[j];
    assert k < closed;
    assert starts[..closed][k] == s;
  }

  lemma EarlyStart(bars: seq<Bar>, tf: int, current: int, first: nat, s: int)
    requires tf > 0 && first <= |bars|
    requires forall i | 0 <= i < first :: Bucket(bars[i].t, tf) < current
    requires forall i | first <= i < |bars| :: Bucket(bars[i].t, tf) >= current
    ensures s in Starts(bars, tf)[..BisectLeft(Starts(bars, tf), current)]
      <==> exists i | 0 <= i < |bars[..first]| :: Bucket(bars[..first][i].t, tf) == s
  {
    hide Bucket, BisectLeft;
    var starts := Starts(bars, tf);
    var closed := BisectLeft(starts, current);
    if s in starts[..closed] {
      var k :| 0 <= k < closed && starts[k] == s;
      EarlyStartHasBar(bars, tf, current, first, s);
    }
    if i :| 0 <= i < |bars[..first]| && Bucket(bars[..first][i].t, tf) == s {
      assert bars[..first][i] == bars[i];
      BarHasEarlyStart(bars, tf, current, i);
    }
  }

  /** The bars of the current bucket that have ended add one candle. */
  lemma FormingCandle(bars: seq<Bar>, tf: int, barSeconds: int, now: int)
    requires Aligned(bars, tf, barSeconds)
    requires Forming(bars, tf, barSeconds, now)
    ensures var current := Bucket(now, tf);
      var ended, first := BisectRight(TimesOf(bars), now - barSeconds), BisectLeft(TimesOf(bars), current);
      Resample(bars[..ended], tf) == Resample(bars[..first], tf) + [CandleOf(current, bars[first..ended])]
  {
    hide Bucket, BucketCandle, CandleOf, InBucket;
    var times, current := TimesOf(bars), Bucket(now, tf);
    var ended, first := BisectRight(times, now - barSeconds), BisectLeft(times, current);
    var head, tail := bars[..first], bars[first..ended];
    assert bars[..ended] == head + tail;
    forall i | 0 <= i < |head|
      ensures Bucket(head[i].t, tf) < current
    {
      assert times[i] < current;
      BeforeBucket(head[i].t, now, tf);
    }
    forall i | 0 <= i < |tail|
      ensures Bucket(tail[i].t, tf) == current
    {
      assert times[first] <= times[first + i] <= now - barSeconds;
      BucketMonotone(now, now, tf);
      BeforeBucket(tail[i].t, now, tf);
    }
    OneMoreBucket(head, tail, tf, current);
  }

  lemma OneMoreBucket(head: seq<Bar>, tail: seq<Bar>, tf: int, current: int)
    requires tf > 0 && tail != []
    requires forall i | 0 <= i < |head| :: Bucket(head[i].t, tf) < current
    requires forall i | 0 <= i < |tail| :: Bucket(tail[i].t, tf) == current
    ensures Resample(head + tail, tf) == Resample(head, tf) + [CandleOf(current, tail)]
  {
    hide Bucket, BucketCandle, CandleOf, InBucket;
    var starts, all := Starts(head, tf), head + tail;
    var more := starts + [current];
    forall s
      ensures s in more <==> exists i | 0 <= i < |all| :: Bucket(all[i].t, tf) == s
    {
      if s in starts {
        var i :| 0 <= i < |head| && Bucket(head[i].t, tf) == s;
        assert all[i] == head[i];
      }
      if s == current {
        assert all[|head|] == tail[0];
      }
      if exists i | 0 <= i < |all| :: Bucket(all[i].t, tf) == s {
        var i :| 0 <= i < |all| && Bucket(all[i].t, tf) == s;
        if i < |head| {
          assert all[i] == head[i];
        } else {
          assert all[i] == tail[i - |head|];
        }
      }
    }
    forall i | 0 <= i < |starts|
      ensures starts[i] < current
    {
      assert starts[i] in starts;
    }
    assert Ascending(more);
    var candles := Resample(head, tf) + [CandleOf(current, tail)];
    forall i | 0 <= i < |candles|
      ensures candles[i] == BucketCandle(all, tf, more[i])
    {
      if i < |starts| {
        assert starts[i] < current;
        SameBucketCandle(head, tail, tf, starts[i]);
      } else {
        WholeBucketCandle(head, tail, tf, current);
      }
    }
    ResampleIs(all, tf, candles, more);
  }

  lemma WholeBucketCandle(head: seq<Bar>, tail: seq<Bar>, tf: int, s: int)
    requires tf > 0 && tail != []
    requires forall i | 0 <= i < |head| :: Bucket(head[i].t, tf) != s
    requires forall i | 0 <= i < |tail| :: Bucket(tail[i].t, tf) == s
    ensures BucketCandle(head + tail, tf, s) == CandleOf(s, tail)
  {
    hide Bucket, CandleOf, InBucket;
    InBucketSplits(head, tail, tf, s);
    AllInBucket(head, tf, s);
    AllInBucket(tail, tf, s);
    assert [] + tail == tail;
  }

  /** The slicing of the lookup, for any closed candles and at most one forming one. */
  lemma LookupSlices(hourly: seq<Bar>, closed: nat, forming: seq<Bar>, limit: nat)
    requires closed <= |hourly| && |forming| <= 1
    ensures var slice := hourly[(if closed < limit then 0 else closed - limit)..closed];
      (LastOnes(slice + forming, limit) == LastN(hourly[..closed] + forming, limit)) <==> (limit > 0 || forming == [])
  {
    hide LastOnes;
    var slice := hourly[(if closed < limit then 0 else closed - limit)..closed];
    assert slice == LastN(hourly[..closed], limit);
    LastOfLast(hourly[..closed], forming, limit);
  }

  function FormingPart(bars: seq<Bar>, tf: int, barSeconds: int, now: int): (r: seq<Bar>)
    requires tf > 0
    ensures |r| <= 1
  {
    var ended, first := BisectRight(TimesOf(bars), now - barSeconds), BisectLeft(TimesOf(bars), Bucket(now, tf));
    if first < ended then [CandleOf(Bucket(now, tf), bars[first..ended])] else []
  }

  lemma GroupByParts(bars: seq<Bar>, tf: int, barSeconds: int, now: int)
    requires Aligned(bars, tf, barSeconds)
    ensures BisectLeft(Starts(bars, tf), Bucket(now, tf)) <= |Resample(bars, tf)|
    ensures Resample(Ended(bars, barSeconds, now), tf)
         == Resample(bars, tf)[..BisectLeft(Starts(bars, tf), Bucket(now, tf))] + FormingPart(bars, tf, barSeconds, now)
    ensures FormingPart(bars, tf, barSeconds, now) == [] <==> !Forming(bars, tf, barSeconds, now)
  {
    hide CandleOf, Bucket, Resample, Starts, Ended, InOrder, BisectLeft, BisectRight, TimesOf;
    AtIsGroupBy(bars, tf, barSeconds, now);
    EndedIsPrefix(bars, barSeconds, now);
    SameLength(bars, tf);
  }

  lemma SameLength(bars: seq<Bar>, tf: int)
    requires tf > 0
    ensures |Resample(bars, tf)| == |Starts(bars, tf)|
  {
  }

  /** What the lookup computes from its indexes is the group-by of the ended bars. */
  lemma LookupIsGroupBy(bars: seq<Bar>, tf: int, barSeconds: int, now: int, limit: nat)
    requires Aligned(bars, tf, barSeconds)
    ensures var closed := BisectLeft(Starts(bars, tf), Bucket(now, tf));
      var slice := Resample(bars, tf)[(if closed < limit then 0 else closed - limit)..closed];
      (LastOnes(slice + FormingPart(bars, tf, barSeconds, now), limit)
         == LastN(Resample(Ended(bars, barSeconds, now), tf), limit))
        <==> (limit > 0 || !Forming(bars, tf, barSeconds, now))
  {
    hide Resample, Starts, Bucket, FormingPart, Forming, LastOnes, LastN, Ended, InOrder, BisectLeft;
    GroupByParts(bars, tf, barSeconds, now);
    LookupSlices(Resample(bars, tf), BisectLeft(Starts(bars, tf), Bucket(now, tf)),
                 FormingPart(bars, tf, barSeconds, now), limit);
  }

  lemma FormingIsInCurrent(bars: seq<Bar>, tf: int, barSeconds: int, now: int)
    requires Aligned(bars, tf, barSeconds)
    ensures Forming(bars, tf, barSeconds, now) <==> InCurrent(Ended(bars, barSeconds, now), tf, now)
  {
    hide BisectLeft, BisectRight, Ended, Bucket;
    EndedIsPrefix(bars, barSeconds, now);
    var times := TimesOf(bars);
    var ended, first := BisectRight(times, now - barSeconds), BisectLeft(times, Bucket(now, tf));
    assert forall i | 0 <= i < |bars| :: times[i] == bars[i].t;
    if 0 < ended && first < ended {
      assert times[first] <= times[ended - 1];
    }
  }

  /** With a limit of zero the slice is empty, and taking the last zero takes all. */
  lemma ZeroShowsForming(hourly: seq<Bar>, closed: nat, forming: seq<Bar>)
    requires closed <= |hourly| && |forming| <= 1
    ensures LastOnes(hourly[closed..closed] + forming, 0)
         == LastN(hourly[..closed] + forming, if forming != [] then 1 else 0)
  {
    assert hourly[closed..closed] + forming == forming;
    assert (hourly[..closed] + forming)[closed..] == forming;
  }

  /** What the lookup computes from its indexes depends on the ended bars alone. */
  lemma LookupIsAnswer(bars: seq<Bar>, tf: int, barSeconds: int, now: int, limit: nat)
    requires Aligned(bars, tf, barSeconds)
    ensures var closed := BisectLeft(Starts(bars, tf), Bucket(now, tf));
      closed <= |Resample(bars, tf)| &&
      var slice := Resample(bars, tf)[(if closed < limit then 0 else closed - limit)..closed];
      LastOnes(slice + FormingPart(bars, tf, barSeconds, now), limit)
      == Answer(Ended(bars, barSeconds, now), tf, now, limit)
  {
    hide Resample, Starts, Bucket, FormingPart, Forming, Ended, InOrder, BisectLeft, InCurrent, LastOnes, LastN;
    GroupByParts(bars, tf, barSeconds, now);
    FormingIsInCurrent(bars, tf, barSeconds, now);
    if limit > 0 {
      LookupIsGroupBy(bars, tf, barSeconds, now, limit);
    } else {
      ZeroShowsForming(Resample(bars, tf), BisectLeft(Starts(bars, tf), Bucket(now, tf)),
                       FormingPart(bars, tf, barSeconds, now));
    }
  }

  lemma NothingEnded(bars: seq<Bar>, tf: int, barSeconds: int, now: int, limit: nat)
    requires Aligned(bars, tf, barSeconds) && BisectRight(TimesOf(bars), now - barSeconds) == 0
    ensures LastClose(Ended(bars, barSeconds, now)) == None
    ensures LastN(Resample(Ended(bars, barSeconds, now), tf), limit) == [] && !Forming(bars, tf, barSeconds, now)
    ensures Answer(Ended(bars, barSeconds, now), tf, now, limit) == []
  {
  }

  lemma PriceIsLastClose(bars: seq<Bar>, tf: int, barSeconds: int, now: int)
    requires Aligned(bars, tf, barSeconds)
    ensures var ended := BisectRight(TimesOf(bars), now - barSeconds);
      ended > 0 ==> LastClose(Ended(bars, barSeconds, now)) == Some(bars[ended - 1].close)
  {
    EndedIsPrefix(bars, barSeconds, now);
  }

  lemma FormingPartIs(bars: seq<Bar>, tf: int, barSeconds: int, now: int)
    requires tf > 0
    ensures var current := now / tf * tf;
      var ended, first := BisectRight(TimesOf(bars), now - barSeconds), BisectLeft(TimesOf(bars), current);
      && current == Bucket(now, tf)
      && FormingPart(bars, tf, barSeconds, now) == if first < ended then [CandleOf(current, bars[first..ended])] else []
  {
    hide BisectLeft, BisectRight, TimesOf, CandleOf;
  }

  /** No look-ahead: histories that agree up to the last bar ended by now give the same answer, whatever follows. */
  method SameAnswer(a: View, b: View, now: int, limit: nat) returns (same: bool)
    requires a.Valid() && b.Valid()
    requires a.tf == b.tf && a.barSeconds == b.barSeconds
    requires Aligned(a.bars, a.tf, a.barSeconds) && Aligned(b.bars, b.tf, b.barSeconds)
    requires Ended(a.bars, a.barSeconds, now) == Ended(b.bars, b.barSeconds, now)
    ensures same
  {
    hide Answer, Aligned;
    var x, p := a.At(now, limit);
    var y, q := b.At(now, limit);
    same := x == y && p == q;
  }

  /**
   * Live and replay candles agree: when the live cache holds the hourly candles of the bars ended by now, the live
   * 4h builder and the replay's 4h view of those bars show the same.
   */
  method LiveMatchesReplay(view: View, hourly: map<int, Bar>, now: int, limit: nat) returns (same: bool)
    requires view.Valid() && view.tf == FOUR_HOURS && limit > 0
    requires Aligned(view.bars, FOUR_HOURS, view.barSeconds) && HOUR % view.barSeconds == 0
    requires hourly == CacheOf(Resample(Ended(view.bars, view.barSeconds, now), HOUR))
    ensures same
  {
    hide *;
    LiveRows(view.bars, view.barSeconds, now, limit);
    var live := FourHourCandles(hourly, limit);
    var replay, _ := view.At(now, limit);
    same := live == replay;
  }

  const HOUR := 3600

  lemma EndedAligned(bars: seq<Bar>, tf: int, barSeconds: int, now: int)
    requires Aligned(bars, tf, barSeconds)
    ensures InOrder(Ended(bars, barSeconds, now))
  {
    EndedIsPrefix(bars, barSeconds, now);
  }

  lemma SameLast(candles: seq<Bar>, limit: nat)
    requires limit > 0
    ensures LastOnes(candles, limit) == LastN(candles, limit)
  {
  }

  lemma LiveRows(bars: seq<Bar>, barSeconds: int, now: int, limit: nat)
    requires Aligned(bars, FOUR_HOURS, barSeconds) && limit > 0
    ensures var hourly := CacheOf(Resample(Ended(bars, barSeconds, now), HOUR));
      && (forall t | t in hourly :: hourly[t].t == t)
      && LastOnes(Resample(RowsOf(hourly), FOUR_HOURS), limit)
         == Answer(Ended(bars, barSeconds, now), FOUR_HOURS, now, limit)
  {
    hide Bucket, BucketCandle, Aligned, Ended, InOrder, Resample, CacheOf, RowsOf, LastOnes, LastN, TimesOf, Ascending;
    var ended := Ended(bars, barSeconds, now);
    EndedAligned(bars, FOUR_HOURS, barSeconds, now);
    ResampleComposes(ended, HOUR, FOUR_HOURS);
    CandleTimes(ended, HOUR);
    RowsOfCache(Resample(ended, HOUR));
    SameLast(Resample(ended, FOUR_HOURS), limit);
  }

  lemma CandleTimes(bars: seq<Bar>, tf: int)
    requires tf > 0
    ensures TimesOf(Resample(bars, tf)) == Starts(bars, tf)
  {
    hide Bucket, BucketCandle;
    forall i | 0 <= i < |Starts(bars, tf)|
      ensures Resample(bars, tf)[i].t == Starts(bars, tf)[i]
    {
      CandleTime(bars, tf, Starts(bars, tf)[i]);
    }
  }
  lemma OneCandle(bar: Bar, tf: int)
    requires tf > 0
    ensures |Resample([bar], tf)| == 1
  {
    hide BucketCandle, Bucket;
    assert [bar][..0] == [] && [bar][1..] == [];
    assert |Starts([bar], tf)| == 1;
  }

  lemma OneEnded(bar: Bar, barSeconds: int, now: int)
    requires bar.t + barSeconds <= now
    ensures Ended([bar], barSeconds, now) == [bar]
  {
    assert [bar][..0] == [] && Ended([], barSeconds, now) == [];
  }

  lemma QuarterPast(hour: int, t: int)
    requires t == 3600 * hour
    ensures Bucket(t + 900, 3600) == t && t % 900 == 0
  {
    assert (t + 900) / 3600 == hour;
    assert t == 900 * (4 * hour);
  }

  /** For example, a quarter of an hour into the hour a query for no candles shows one. */
  lemma ZeroShowsOne(hour: int, bar: Bar)
    requires bar.t == 3600 * hour
    ensures var now := bar.t + 900;
      && Aligned([bar], 3600, 900) && Forming([bar], 3600, 900, now)
      && |Answer(Ended([bar], 900, now), 3600, now, 0)| == 1
  {
    hide Resample, Ended, Forming, Bucket;
    var now := bar.t + 900;
    OneCandle(bar, 3600);
    OneEnded(bar, 900, now);
    QuarterPast(hour, bar.t);
    FormingIsInCurrent([bar], 3600, 900, now);
  }
}
