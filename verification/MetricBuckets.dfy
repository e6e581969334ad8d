/** Windowed aggregation of samples and the one-pass parser of a JTL file
    (api/app/services/report_metrics.py). */
module MetricBuckets {
  import opened Numbers
  import opened Options
  import opened Jtl

  datatype Bucket = Bucket(elapsed: seq<int>, fail: nat, threads: int, threadNames: set<string>, count: nat)

  type Buckets = map<int, Bucket>

  const EMPTY_BUCKET := Bucket([], 0, 0, {}, 0)

  function AddToBucket(b: Bucket, s: Sample): Bucket {
    Bucket(
      b.elapsed + [s.elapsed],
      b.fail + (if s.success then 0 else 1),
      Max(b.threads, s.threads),
      if s.threadName != "" then b.threadNames + {s.threadName} else b.threadNames,
      b.count + 1)
  }

  function BucketAt(buckets: Buckets, key: int): Bucket {
    if key in buckets then buckets[key] else EMPTY_BUCKET
  }

  function AddSample(c: Config, buckets: Buckets, s: Sample): Buckets {
    var key := c.Key(s.timestampMs);
    buckets[key := AddToBucket(BucketAt(buckets, key), s)]
  }

  function AddAll(c: Config, buckets: Buckets, samples: seq<Sample>): Buckets {
    if samples == [] then buckets
    else AddSample(c, AddAll(c, buckets, samples[..|samples| - 1]), samples[|samples| - 1])
  }

  function BucketsOf(c: Config, samples: seq<Sample>): Buckets { AddAll(c, map[], samples) }

  // ----- what a bucket means, without the fold --------------------------------

  /** The samples of one window, in file order. */
  function Slot(c: Config, samples: seq<Sample>, key: int): seq<Sample> {
    if samples == [] then []
    else
      var s := samples[|samples| - 1];
      Slot(c, samples[..|samples| - 1], key) + (if c.Key(s.timestampMs) == key then [s] else [])
  }

  function Elapsed(samples: seq<Sample>): seq<int> {
    seq(|samples|, i requires 0 <= i < |samples| => samples[i].elapsed)
  }

  function Failures(samples: seq<Sample>): nat {
    if samples == [] then 0
    else Failures(samples[..|samples| - 1]) + (if samples[|samples| - 1].success then 0 else 1)
  }

  /** A bucket holds exactly its window's samples: their elapsed times in file order, how
      many there are and how many failed, the distinct thread names, the highest thread count. */
  ghost predicate Summarises(b: Bucket, slot: seq<Sample>) {
    && b.elapsed == Elapsed(slot)
    && b.count == |slot|
    && b.fail == Failures(slot)
    && b.threadNames == (set s | s in slot && s.threadName != "" :: s.threadName)
    && (forall s | s in slot :: s.threads <= b.threads)
    && (b.threads == 0 || exists s | s in slot :: s.threads == b.threads)
    && 0 <= b.threads
  }

  lemma AddToBucketSummarises(b: Bucket, slot: seq<Sample>, s: Sample)
    requires Summarises(b, slot)
    ensures Summarises(AddToBucket(b, s), slot + [s])
  {
    var slot' := slot + [s];
    assert slot'[..|slot|] == slot;
    assert forall x :: x in slot' <==> x in slot || x == s;
    assert Elapsed(slot') == Elapsed(slot) + [s.elapsed];
    if b.threads >= s.threads {
      if b.threads != 0 {
        var x :| x in slot && x.threads == b.threads;
        assert x in slot';
      }
    } else {
      assert s in slot';
    }
  }

  lemma OneSampleMore(c: Config, init: seq<Sample>, s: Sample, key: int)
    ensures
      var b, b' := BucketsOf(c, init), BucketsOf(c, init + [s]);
      if c.Key(s.timestampMs) == key then
        && key in b' && b'[key] == AddToBucket(BucketAt(b, key), s)
        && Slot(c, init + [s], key) == Slot(c, init, key) + [s]
      else
        && (key in b <==> key in b') && BucketAt(b', key) == BucketAt(b, key)
        && Slot(c, init + [s], key) == Slot(c, init, key)
  {
    assert (init + [s])[..|init|] == init;
  }

  /** Every window with a sample has a bucket, no other has, and each bucket summarises its
      own window. */
  lemma {:induction false} BucketMeaning(c: Config, samples: seq<Sample>, key: int)
    ensures key in BucketsOf(c, samples) <==> Slot(c, samples, key) != []
    ensures Summarises(BucketAt(BucketsOf(c, samples), key), Slot(c, samples, key))
  {
    if samples == [] {
      assert Elapsed([]) == [];
    } else {
      var init, s := samples[..|samples| - 1], samples[|samples| - 1];
      assert samples == init + [s];
      BucketMeaning(c, init, key);
      OneSampleMore(c, init, s, key);
      if c.Key(s.timestampMs) == key {
        AddToBucketSummarises(BucketAt(BucketsOf(c, init), key), Slot(c, init, key), s);
      }
    }
  }

  lemma {:induction false} SlotConcat(c: Config, a: seq<Sample>, b: seq<Sample>, key: int)
    ensures Slot(c, a + b, key) == Slot(c, a, key) + Slot(c, b, key)
  {
    if b == [] {
      assert a + b == a;
    } else {
      hide FloorTo;
      var init, s := b[..|b| - 1], b[|b| - 1];
      SlotConcat(c, a, init, key);
      assert (a + b)[..|a + b| - 1] == a + init && (a + b)[|a + b| - 1] == s;
      var tail := if c.Key(s.timestampMs) == key then [s] else [];
      assert Slot(c, a, key) + (Slot(c, init, key) + tail) == Slot(c, a, key) + Slot(c, init, key) + tail;
    }
  }

  lemma {:induction false} SlotNonEmpty(c: Config, samples: seq<Sample>, key: int)
    ensures Slot(c, samples, key) != [] <==> exists s :: s in samples && c.Key(s.timestampMs) == key
  {
    if samples != [] {
      var init, last := samples[..|samples| - 1], samples[|samples| - 1];
      SlotNonEmpty(c, init, key);
      assert samples == init + [last];
      if s :| s in samples && c.Key(s.timestampMs) == key {
        assert s in init || s == last;
      }
    }
  }

  // ----- one metric row per bucket --------------------------------------------

  datatype Metric = Metric(
    bucketStartMs: int, qps: real, avgRt: real, p95Rt: real, p99Rt: real,
    errorRate: real, threads: int, sampleCount: nat, failCount: nat, tpsPeak: real)

  /** `round(count / window_sec, 1)`. */
  function Qps(c: Config, count: nat): real { Round1(count as real / c.windowSec as real) }

  function ActiveThreads(c: Config, b: Bucket): int {
    var active := Max(b.threads, |b.threadNames|);
    if c.meta.Some? && c.meta.value.totalThreads > 0 then Min(active, c.meta.value.totalThreads) else active
  }

  /** `_bucket_to_metric`; the peak column is filled in afterwards. */
  function MetricOf(c: Config, key: int, b: Bucket): (r: Option<Metric>)
    ensures r.Some? <==> b.count > 0
    ensures r.Some? ==>
      && r.value.bucketStartMs == key && r.value.qps == Qps(c, b.count)
      && r.value.sampleCount == b.count && r.value.failCount == b.fail
  {
    if b.count == 0 then None
    else
      var sorted := Sorted(b.elapsed);
      Some(Metric(
        key,
        Qps(c, b.count),
        Round1(Sum(sorted) as real / b.count as real),
        Round1(Percentile(sorted, 95.0)),
        Round1(Percentile(sorted, 99.0)),
        Round2(b.fail as real / b.count as real * 100.0),
        ActiveThreads(c, b), b.count, b.fail, 0.0))
  }

  /** In every produced row the 95th percentile is at most the 99th. */
  lemma P95AtMostP99(c: Config, key: int, b: Bucket)
    requires b.count > 0
    ensures MetricOf(c, key, b).value.p95Rt <= MetricOf(c, key, b).value.p99Rt
  {
    var sorted := Sorted(b.elapsed);
    PercentileMonotone(sorted, 95.0, 99.0);
    RoundMonotone(Percentile(sorted, 95.0), Percentile(sorted, 99.0));
  }

  lemma QpsMonotone(c: Config, m: nat, n: nat)
    requires m <= n
    ensures Qps(c, m) <= Qps(c, n)
  {
    var w := c.windowSec as real;
    assert m as real / w <= n as real / w;
    RoundMonotone(m as real / w, n as real / w);
  }

  function RowsFor(c: Config, buckets: Buckets, keys: seq<int>): seq<Metric>
    requires forall k | k in keys :: k in buckets
  {
    if keys == [] then []
    else
      var last := keys[|keys| - 1];
      var m := MetricOf(c, last, buckets[last]);
      RowsFor(c, buckets, keys[..|keys| - 1]) + (if m.Some? then [m.value] else [])
  }

  function MaxQps(rows: seq<Metric>): real {
    if rows == [] then 0.0 else MaxReal(MaxQps(rows[..|rows| - 1]), rows[|rows| - 1].qps)
  }

  /** The row with its peak column rewritten. */
  function Peaked(m: Metric, peak: real): (r: Metric)
    ensures r.qps == m.qps && r.bucketStartMs == m.bucketStartMs && r.tpsPeak == peak
  {
    m.(tpsPeak := peak)
  }

  function WithPeak(rows: seq<Metric>, peak: real): seq<Metric> {
    seq(|rows|, i requires 0 <= i < |rows| => Peaked(rows[i], peak))
  }

  /** `_metrics_from_buckets`: rows in key order, each carrying the running peak. */
  function MetricsFrom(c: Config, buckets: Buckets, keys: set<int>, previousPeak: real): (seq<Metric>, real)
    requires keys <= buckets.Keys
  {
    var rows := RowsFor(c, buckets, SortedKeys(keys));
    var peak := MaxReal(previousPeak, MaxQps(rows));
    (WithPeak(rows, peak), peak)
  }

  /** The rows the one-pass parser returns for the samples of a file. */
  function BatchMetrics(c: Config, samples: seq<Sample>): seq<Metric> {
    var b := BucketsOf(c, samples);
    MetricsFrom(c, b, b.Keys, 0.0).0
  }

  // ----- the imperative parser --------------------------------------------------

  /** `_append_metric_row`. The dictionary is updated and the touched key returned. */
  method AppendMetricRow(c: Config, buckets: Buckets, row: Row) returns (updated: Buckets, key: Option<int>)
    ensures ParseRow(c, row).None? ==> updated == buckets && key == None
    ensures ParseRow(c, row).Some? ==>
      var s := ParseRow(c, row).value;
      updated == AddSample(c, buckets, s) && key == Some(c.Key(s.timestampMs))
  {
    updated, key := buckets, None;
    var timestampRaw, elapsedRaw, successRaw := Get(row, "timeStamp"), Get(row, "elapsed"), Get(row, "success");
    if timestampRaw == "" || elapsedRaw == "" || successRaw == "" {
      return;
    }
    var timestamp := c.decoder.toInt(timestampRaw);
    var elapsed := c.decoder.toInt(elapsedRaw);
    var threadsText := Get(row, "allThreads");
    if threadsText == "" {
      threadsText := Get(row, "grpThreads");
    }
    if threadsText == "" {
      threadsText := "0";
    }
    var rawThreads := c.decoder.toInt(threadsText);
    if timestamp.None? || elapsed.None? || rawThreads.None? {
      return;
    }
    var threads := NormalizeThreads(rawThreads.value, c.meta);
    var threadName := c.decoder.strip(Get(row, "threadName"));
    if timestamp.value <= 0 {
      return;
    }
    var k := FloorTo(timestamp.value, c.Window());
    var bucket := EMPTY_BUCKET;
    if k in buckets {
      bucket := buckets[k];
    }
    bucket := bucket.(elapsed := bucket.elapsed + [elapsed.value]);
    if !IsTrue(successRaw) {
      bucket := bucket.(fail := bucket.fail + 1);
    }
    bucket := bucket.(threads := Max(bucket.threads, threads));
    if threadName != "" {
      bucket := bucket.(threadNames := bucket.threadNames + {threadName});
    }
    bucket := bucket.(count := bucket.count + 1);
    updated, key := buckets[k := bucket], Some(k);
  }

  method CollectRows(c: Config, buckets: Buckets, selected: seq<int>) returns (rows: seq<Metric>)
    requires forall k | k in selected :: k in buckets
    ensures rows == RowsFor(c, buckets, selected)
  {
    rows := [];
    for i := 0 to |selected|
      invariant rows == RowsFor(c, buckets, selected[..i])
    {
      assert selected[..i + 1][..i] == selected[..i];
      var metric := MetricOf(c, selected[i], buckets[selected[i]]);
      if metric.Some? {
        rows := rows + [metric.value];
      }
    }
    assert selected[..|selected|] == selected;
  }

  method HighestQps(rows: seq<Metric>) returns (peak: real)
    ensures peak == MaxQps(rows)
  {
    peak := 0.0;
    for i := 0 to |rows|
      invariant peak == MaxQps(rows[..i])
    {
      assert rows[..i + 1][..i] == rows[..i];
      peak := MaxReal(peak, rows[i].qps);
    }
    assert rows[..|rows|] == rows;
  }

  /** `_metrics_from_buckets` as it runs: collect the rows in key order, then the peak,
      then write the peak into every row. */
  method MetricsFromBuckets(c: Config, buckets: Buckets, keys: set<int>, previousPeak: real)
    returns (rows: seq<Metric>, peak: real)
    requires keys <= buckets.Keys
    ensures (rows, peak) == MetricsFrom(c, buckets, keys, previousPeak)
  {
    var plain := CollectRows(c, buckets, SortedKeys(keys));
    var highest := HighestQps(plain);
    peak := MaxReal(previousPeak, highest);
    rows := [];
    for i := 0 to |plain|
      invariant rows == WithPeak(plain[..i], peak)
    {
      rows := rows + [Peaked(plain[i], peak)];
    }
    assert plain[..|plain|] == plain;
  }

  /** The samples of the rows `csv.DictReader` yields. */
  function SamplesOfRows(c: Config, rows: seq<Row>): seq<Sample> {
    if rows == [] then []
    else
      var s := ParseRow(c, rows[|rows| - 1]);
      SamplesOfRows(c, rows[..|rows| - 1]) + (if s.Some? then [s.value] else [])
  }

  lemma OneMore(c: Config, rows: seq<Row>, row: Row)
    ensures
      var before, s := BucketsOf(c, SamplesOfRows(c, rows)), ParseRow(c, row);
      BucketsOf(c, SamplesOfRows(c, rows + [row])) == if s.Some? then AddSample(c, before, s.value) else before
  {
    assert (rows + [row])[..|rows|] == rows;
    var before, s := SamplesOfRows(c, rows), ParseRow(c, row);
    if s.Some? {
      assert (before + [s.value])[..|before|] == before;
    } else {
      assert before + [] == before;
    }
  }

  /** `_parse_jtl_metrics` on a readable file; `rows` is what `csv.DictReader` yields for it. */
  method ParseJtlMetrics(c: Config, rows: seq<Row>) returns (metrics: seq<Metric>)
    ensures metrics == BatchMetrics(c, SamplesOfRows(c, rows))
  {
    var buckets: Buckets := map[];
    for i := 0 to |rows|
      invariant buckets == BucketsOf(c, SamplesOfRows(c, rows[..i]))
    {
      assert rows[..i + 1] == rows[..i] + [rows[i]];
      var key;
      buckets, key := AppendMetricRow(c, buckets, rows[i]);
      OneMore(c, rows[..i], rows[i]);
    }
    assert rows[..|rows|] == rows;
    var peak;
    metrics, peak := MetricsFromBuckets(c, buckets, buckets.Keys, 0.0);
  }
}
