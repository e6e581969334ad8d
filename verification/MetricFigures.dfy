/** What the figures of a metric row say, told from the samples of its window alone. */
module MetricFigures {
  import opened Numbers
  import opened Options
  import opened Sets
  import opened Jtl
  import opened MetricBuckets
  import opened MetricRows

  // ----- windows ---------------------------------------------------------------------------------------

  /** The instant lies in the window of that many seconds that starts at key. */
  predicate InWindow(c: Config, key: int, timestampMs: int) {
    key % (c.windowSec * 1000) == 0 && key <= timestampMs < key + c.windowSec * 1000
  }

  /** Every instant lies in the window it is counted in, and in no other. */
  lemma KeyIsItsWindow(c: Config, key: int, timestampMs: int)
    ensures c.Key(timestampMs) == key <==> InWindow(c, key, timestampMs)
  {
    var w := c.windowSec * 1000;
    FloorToRange(timestampMs, w);
    if c.Key(timestampMs) == key {
      MultipleOf(timestampMs / w, w);
    }
    if InWindow(c, key, timestampMs) {
      DivOfMultiple(key, w);
      FloorToUnique(key, FloorTo(timestampMs, w), timestampMs, w);
    }
  }

  lemma MultipleOf(q: int, w: int)
    requires w > 0
    ensures q * w % w == 0
  {
    DivOfProduct(q, w);
    assert q * w == q * w / w * w + q * w % w;
  }

  lemma DivOfMultiple(key: int, w: int)
    requires w > 0 && key % w == 0
    ensures FloorTo(key, w) == key
  {
    assert key == key / w * w + key % w;
  }

  /** Two window starts around one instant are the same. */
  lemma FloorToUnique(a: int, b: int, t: int, w: int)
    requires w > 0 && FloorTo(a, w) == a && b == FloorTo(t, w) && a <= t < a + w && b <= t < b + w
    ensures a == b
  {
    FloorToRange(t, w);
    if a < b {
      AdjacentWindows(a, b, w);
    } else if b < a {
      AdjacentWindows(b, a, w);
    }
  }

  /** A window's samples are those of the file that lie in it, each as often as the file has it. */
  lemma {:induction false} SlotHolds(c: Config, samples: seq<Sample>, key: int)
    ensures forall s ::
      multiset(Slot(c, samples, key))[s] == (if InWindow(c, key, s.timestampMs) then multiset(samples)[s] else 0)
  {
    if samples != [] {
      hide InWindow, FloorTo;
      var init, last := samples[..|samples| - 1], samples[|samples| - 1];
      SlotHolds(c, init, key);
      KeyIsItsWindow(c, key, last.timestampMs);
      assert samples == init + [last];
      assert multiset(samples) == multiset(init) + multiset{last};
      var own := if c.Key(last.timestampMs) == key then [last] else [];
      assert multiset(Slot(c, init, key) + own) == multiset(Slot(c, init, key)) + multiset(own);
    }
  }

  // ----- counts ----------------------------------------------------------------------------------------

  function Failed(slot: seq<Sample>): set<nat> { set i: nat | i < |slot| && !slot[i].success }

  lemma {:induction false} FailuresCount(slot: seq<Sample>)
    ensures Failures(slot) == |Failed(slot)|
  {
    if slot != [] {
      var n := |slot| - 1;
      FailuresCount(slot[..n]);
      assert Failed(slot) == if slot[n].success then Failed(slot[..n]) else Failed(slot[..n]) + {n};
    }
  }

  // ----- rounding --------------------------------------------------------------------------------------

  predicate Near(a: real, b: real, e: real) { -e <= a - b <= e }

  /** x is within e of n divided by w. */
  predicate NearRatio(x: real, n: real, w: real, e: real) { Near(x * w, n, e * w) }

  lemma RoundNear(x: real)
    ensures Near(Round1(x), x, 0.05) && Near(Round2(x), x, 0.005)
  {
    var r, q := RoundHalfEven(10.0 * x), RoundHalfEven(100.0 * x);
    assert -0.5 <= r as real - 10.0 * x <= 0.5 && -0.5 <= q as real - 100.0 * x <= 0.5;
  }

  lemma NearTimes(a: real, n: real, w: real, e: real)
    requires w > 0.0 && Near(a, n / w, e)
    ensures NearRatio(a, n, w, e)
  {
    var q := n / w;
    assert q * w == n;
    assert a * w - n == (a - q) * w;
    Scale(w, -e, a - q);
    Scale(w, a - q, e);
  }

  // ----- one row ---------------------------------------------------------------------------------------

  /** The percentile of ascending values, interpolated between the neighbours of its rank. */
  ghost predicate IsPercentile(x: real, ascending: seq<int>, p: real)
    requires ascending != [] && 0.0 <= p <= 100.0
  {
    var k := (|ascending| - 1) as real * p / 100.0;
    0 <= k.Floor < |ascending| &&
    if k.Floor + 1 < |ascending|
    then Near(x, ascending[k.Floor] as real + (k - k.Floor as real) * (ascending[k.Floor + 1] - ascending[k.Floor]) as real, 0.05)
    else Near(x, ascending[k.Floor] as real, 0.05)
  }

  ghost predicate IsHighest(high: int, slot: seq<Sample>) {
    && 0 <= high && (forall s | s in slot :: s.threads <= high)
    && (high == 0 || exists s :: s in slot && s.threads == high)
  }

  /** What a row says of the samples of its window: how many, how many failed, their rate per
      second, the mean and the percentiles of their elapsed times, the share that failed, and the
      active threads, all but the counts rounded. */
  ghost predicate Tells(c: Config, m: Metric, slot: seq<Sample>)
    requires slot != []
  {
    var n, elapsed := |slot| as real, seq(|slot|, i requires 0 <= i < |slot| => slot[i].elapsed);
    && m.sampleCount == |slot| && m.failCount == |Failed(slot)|
    && NearRatio(m.qps, n, c.windowSec as real, 0.05)
    && NearRatio(m.avgRt, Sum(elapsed) as real, n, 0.05)
    && NearRatio(m.errorRate, 100.0 * |Failed(slot)| as real, n, 0.005)
    && IsPercentile(m.p95Rt, Sorted(elapsed), 95.0) && IsPercentile(m.p99Rt, Sorted(elapsed), 99.0)
    && (exists high :: IsHighest(high, slot) && m.threads == Shown(c, high, slot))
  }

  /** The larger of the highest thread count and the number of distinct thread names, and no more
      than the threads of the run. */
  function Shown(c: Config, high: int, slot: seq<Sample>): int {
    var names := |set s | s in slot && s.threadName != "" :: s.threadName|;
    var active := if high < names then names else high;
    if c.meta.Some? && 0 < c.meta.value.totalThreads < active then c.meta.value.totalThreads else active
  }

  lemma PercentileTold(s: seq<int>, p: real)
    requires s != [] && 0.0 <= p <= 100.0
    ensures IsPercentile(Round1(Percentile(s, p)), s, p)
  {
    PercentileInterpolates(s, p);
    RoundNear(Percentile(s, p));
    hide Percentile, Round1;
  }

  /** Any row is told by its window. */
  lemma MetricTells(c: Config, samples: seq<Sample>, key: int)
    requires Slot(c, samples, key) != []
    ensures
      var m := MetricOf(c, key, BucketAt(BucketsOf(c, samples), key));
      m.Some? && m.value.bucketStartMs == key && Tells(c, m.value, Slot(c, samples, key))
  {
    hide FloorTo, Sorted, Percentile, Round1, Round2, BucketsOf, Slot, Failed, NearRatio, IsPercentile, Sum;
    var b, slot := BucketAt(BucketsOf(c, samples), key), Slot(c, samples, key);
    BucketMeaning(c, samples, key);
    FailuresCount(slot);
    var n := b.count as real;
    RateNear(b.count as real / c.windowSec as real, b.count as real, c.windowSec as real);
    SumOfSorted(b.elapsed);
    RateNear(Sum(b.elapsed) as real / n, Sum(b.elapsed) as real, n);
    ShareNear(b.fail as real, n);
    PercentileTold(Sorted(b.elapsed), 95.0);
    PercentileTold(Sorted(b.elapsed), 99.0);
    assert IsHighest(b.threads, slot) && ActiveThreads(c, b) == Shown(c, b.threads, slot);
  }

  lemma RateNear(x: real, n: real, w: real)
    requires w > 0.0 && x == n / w
    ensures NearRatio(Round1(x), n, w, 0.05)
  {
    hide Round1;
    RoundNear(x);
    NearTimes(Round1(x), n, w, 0.05);
  }

  lemma ShareNear(fail: real, n: real)
    requires n > 0.0
    ensures NearRatio(Round2(fail / n * 100.0), 100.0 * fail, n, 0.005)
  {
    hide Round2;
    var q := fail / n;
    assert q * 100.0 == 100.0 * fail / n;
    RoundNear(q * 100.0);
    NearTimes(Round2(q * 100.0), 100.0 * fail, n, 0.005);
  }

  lemma {:induction false} SumWithin(s: seq<int>, low: int, high: int)
    requires forall x | x in s :: low <= x <= high
    ensures low * |s| <= Sum(s) <= high * |s|
  {
    if s != [] {
      var init, last, n := s[..|s| - 1], s[|s| - 1], |s| - 1;
      assert last in s && forall x | x in init :: x in s;
      SumWithin(init, low, high);
      assert low * (n + 1) == low * n + low && high * (n + 1) == high * n + high;
    }
  }

  lemma QuotientWithin(sum: int, n: nat, low: int, high: int)
    requires n > 0 && low * n <= sum <= high * n
    ensures low as real <= sum as real / n as real <= high as real
  {
    var q := sum as real / n as real;
    assert q * n as real == sum as real;
    assert (low * n) as real == low as real * n as real && (high * n) as real == high as real * n as real;
    if q < low as real {
      ProductGrows(q, low as real, n as real);
    }
    if q > high as real {
      ProductGrows(high as real, q, n as real);
    }
  }

  lemma ProductGrows(a: real, b: real, n: real)
    requires a < b && n > 0.0
    ensures a * n < b * n
  {}

  /** Rounding keeps whole bounds. */
  lemma RoundWithin(x: real, low: int, high: int)
    requires low as real <= x <= high as real
    ensures low as real <= Round1(x) <= high as real && low as real <= Round2(x) <= high as real
  {
    RoundHalfEvenMonotone((10 * low) as real, 10.0 * x);
    RoundHalfEvenMonotone(10.0 * x, (10 * high) as real);
    RoundHalfEvenMonotone((100 * low) as real, 100.0 * x);
    RoundHalfEvenMonotone(100.0 * x, (100 * high) as real);
  }

  lemma {:induction false} FailuresWithin(slot: seq<Sample>)
    ensures Failures(slot) <= |slot|
  {
    if slot != [] {
      FailuresWithin(slot[..|slot| - 1]);
    }
  }

  /** Any bounds on the elapsed times of a window bound its average and percentiles, rounding
      included, and the error rate is a percentage, besides what the row says of the window. */
  lemma FiguresWithin(c: Config, samples: seq<Sample>, key: int, low: int, high: int)
    requires Slot(c, samples, key) != [] && forall s | s in Slot(c, samples, key) :: low <= s.elapsed <= high
    ensures
      var m := MetricOf(c, key, BucketAt(BucketsOf(c, samples), key));
      && m.Some?
      && low as real <= m.value.avgRt <= high as real
      && low as real <= m.value.p95Rt <= m.value.p99Rt <= high as real
      && 0.0 <= m.value.errorRate <= 100.0
      && m.value.failCount <= m.value.sampleCount
      && Tells(c, m.value, Slot(c, samples, key))
  {
    hide FloorTo, Sorted, Percentile, Round1, Round2, BucketsOf, Slot, Tells;
    MetricTells(c, samples, key);
    var b, slot := BucketAt(BucketsOf(c, samples), key), Slot(c, samples, key);
    BucketMeaning(c, samples, key);
    FailuresWithin(slot);
    P95AtMostP99(c, key, b);
    var sorted := Sorted(b.elapsed);
    forall x | x in sorted
      ensures low <= x <= high
    {
      assert x in multiset(sorted) && x in b.elapsed;
    }
    SumWithin(sorted, low, high);
    QuotientWithin(Sum(sorted), b.count, low, high);
    RoundWithin(Sum(sorted) as real / b.count as real, low, high);
    PercentileRange(sorted, 95.0);
    PercentileRange(sorted, 99.0);
    assert sorted[0] in sorted && sorted[|sorted| - 1] in sorted;
    RoundWithin(Percentile(sorted, 95.0), low, high);
    RoundWithin(Percentile(sorted, 99.0), low, high);
    QuotientWithin(b.fail, b.count, 0, 1);
    RoundWithin(b.fail as real / b.count as real * 100.0, 0, 100);
  }

  // ----- all rows ----------------------------------------------------------------------------------------

  /** The rows of a file: one for each window that holds a sample, in ascending order, each told by
      its window, and each with the highest rate of all. */
  lemma BatchTells(c: Config, samples: seq<Sample>)
    ensures
      var rows := BatchMetrics(c, samples);
      && (forall i, j | 0 <= i < j < |rows| :: rows[i].bucketStartMs < rows[j].bucketStartMs)
      && (forall s | s in samples :: exists i :: 0 <= i < |rows| && InWindow(c, rows[i].bucketStartMs, s.timestampMs))
      && (forall i | 0 <= i < |rows| ::
            && Slot(c, samples, rows[i].bucketStartMs) != []
            && Tells(c, rows[i], Slot(c, samples, rows[i].bucketStartMs))
            && (forall j | 0 <= j < |rows| :: rows[j].qps <= rows[i].tpsPeak)
            && (rows[i].tpsPeak == 0.0 || exists j :: 0 <= j < |rows| && rows[j].qps == rows[i].tpsPeak))
  {
    hide MetricOf, Qps, Summarises, BucketsOf, Tells, Slot, FloorTo, InWindow;
    var b, rows := BucketsOf(c, samples), BatchMetrics(c, samples);
    BatchIsCounted(c, samples);
    var order := SortedKeys(b.Keys);
    forall i | 0 <= i < |order|
      ensures |rows| == |order| && rows[i].bucketStartMs == order[i] && order[i] in b
      ensures Slot(c, samples, order[i]) != [] && Tells(c, rows[i], Slot(c, samples, order[i]))
    {
      RowAt(c, b, b.Keys, 0.0, i);
      BucketMeaning(c, samples, order[i]);
      MetricTells(c, samples, order[i]);
      PeakedTells(c, MetricOf(c, order[i], b[order[i]]).value, rows[i].tpsPeak, Slot(c, samples, order[i]));
    }
    RowCount(c, b, b.Keys, 0.0);
    forall s | s in samples
      ensures exists i :: 0 <= i < |rows| && InWindow(c, rows[i].bucketStartMs, s.timestampMs)
    {
      var key := c.Key(s.timestampMs);
      SlotNonEmpty(c, samples, key);
      BucketMeaning(c, samples, key);
      KeyIsItsWindow(c, key, s.timestampMs);
      var i :| 0 <= i < |order| && order[i] == key;
      assert rows[i].bucketStartMs == key;
    }
    PeakIsHighest(c, samples);
  }

  lemma BatchIsCounted(c: Config, samples: seq<Sample>)
    ensures Counted(BucketsOf(c, samples))
  {
    forall k | k in BucketsOf(c, samples)
      ensures BucketsOf(c, samples)[k].count > 0
    {
      BucketMeaning(c, samples, k);
    }
  }

  lemma PeakedTells(c: Config, m: Metric, peak: real, slot: seq<Sample>)
    requires slot != [] && Tells(c, m, slot)
    ensures Tells(c, Peaked(m, peak), slot)
  {
    hide NearRatio, IsPercentile, Sorted, Sum, Failed;
    var high :| IsHighest(high, slot) && m.threads == Shown(c, high, slot);
    assert Peaked(m, peak).threads == Shown(c, high, slot);
  }

  lemma PeakIsHighest(c: Config, samples: seq<Sample>)
    ensures
      var rows := BatchMetrics(c, samples);
      forall i | 0 <= i < |rows| ::
        && (forall j | 0 <= j < |rows| :: rows[j].qps <= rows[i].tpsPeak)
        && (rows[i].tpsPeak == 0.0 || exists j :: 0 <= j < |rows| && rows[j].qps == rows[i].tpsPeak)
  {
    hide MetricOf, Qps, BucketsOf;
    var b, rows := BucketsOf(c, samples), BatchMetrics(c, samples);
    var plain := RowsFor(c, b, SortedKeys(b.Keys));
    MaxQpsBounds(plain);
    assert |rows| == |plain| && forall i | 0 <= i < |rows| :: rows[i].qps == plain[i].qps && plain[i] in plain;
    if MaxQps(plain) != 0.0 {
      var m :| m in plain && m.qps == MaxQps(plain);
      var j :| 0 <= j < |plain| && plain[j] == m;
      assert rows[j].qps == MaxQps(plain);
    }
  }
}
