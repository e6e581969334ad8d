/** What a list of metric rows contains, whatever order the buckets are visited in. */
module MetricRows {
  import opened Numbers
  import opened Sets
  import opened Jtl
  import opened MetricBuckets

  function KeysOf(rows: seq<Metric>): set<int> { set m | m in rows :: m.bucketStartMs }

  ghost predicate Counted(buckets: Buckets) { forall k | k in buckets :: buckets[k].count > 0 }

  lemma {:induction false} RowsForAll(c: Config, buckets: Buckets, keys: seq<int>)
    requires Counted(buckets) && forall k | k in keys :: k in buckets
    ensures |RowsFor(c, buckets, keys)| == |keys|
    ensures forall i | 0 <= i < |keys| :: RowsFor(c, buckets, keys)[i] == MetricOf(c, keys[i], buckets[keys[i]]).value
  {
    hide MetricOf;
    if keys != [] {
      var init := keys[..|keys| - 1];
      RowsForAll(c, buckets, init);
      var rows := RowsFor(c, buckets, init);
      assert RowsFor(c, buckets, keys) == rows + [MetricOf(c, keys[|init|], buckets[keys[|init|]]).value];
      assert forall i | 0 <= i < |init| :: keys[i] == init[i];
    }
  }

  lemma {:induction false} MaxQpsBounds(rows: seq<Metric>)
    ensures 0.0 <= MaxQps(rows)
    ensures forall m | m in rows :: m.qps <= MaxQps(rows)
    ensures MaxQps(rows) == 0.0 || exists m :: m in rows && m.qps == MaxQps(rows)
  {
    if rows != [] {
      var init, last := rows[..|rows| - 1], rows[|rows| - 1];
      MaxQpsBounds(init);
      assert rows == init + [last];
      if MaxQps(rows) != 0.0 && MaxQps(rows) != last.qps {
        var m :| m in init && m.qps == MaxQps(init);
        assert m in rows;
      }
    }
  }

  lemma {:induction false} MaxQpsOf(rows: seq<Metric>, other: seq<Metric>)
    requires |rows| == |other| && forall i | 0 <= i < |rows| :: rows[i].qps == other[i].qps
    ensures MaxQps(rows) == MaxQps(other)
  {
    if rows != [] {
      MaxQpsOf(rows[..|rows| - 1], other[..|rows| - 1]);
    }
  }

  /** A stored row is the metric of its bucket; only the peak column may be older. */
  ghost predicate RowIs(c: Config, row: Metric, key: int, b: Bucket) {
    b.count > 0 && row == Peaked(MetricOf(c, key, b).value, row.tpsPeak)
  }

  /** Row by row, in the order of the keys. */
  lemma RowAt(c: Config, buckets: Buckets, keys: set<int>, previous: real, i: nat)
    requires keys <= buckets.Keys && Counted(buckets) && i < |SortedKeys(keys)|
    ensures
      var (rows, peak) := MetricsFrom(c, buckets, keys, previous);
      var key := SortedKeys(keys)[i];
      && |rows| == |SortedKeys(keys)| && key in keys
      && rows[i].bucketStartMs == key && RowIs(c, rows[i], key, buckets[key])
  {
    hide MetricOf;
    var order := SortedKeys(keys);
    RowsForAll(c, buckets, order);
    assert order[i] in order;
  }

  lemma RowsOfDirty(c: Config, buckets: Buckets, keys: set<int>, previous: real)
    requires keys <= buckets.Keys && Counted(buckets)
    ensures
      var (rows, peak) := MetricsFrom(c, buckets, keys, previous);
      && KeysOf(rows) == keys
      && (forall m | m in rows :: m.bucketStartMs in keys && RowIs(c, m, m.bucketStartMs, buckets[m.bucketStartMs]))
      && (rows == [] <==> keys == {})
  {
    hide MetricsFrom, RowIs;
    var order, rows := SortedKeys(keys), MetricsFrom(c, buckets, keys, previous).0;
    forall i | 0 <= i < |order|
      ensures |rows| == |order| && order[i] in keys && rows[i].bucketStartMs == order[i]
      ensures RowIs(c, rows[i], order[i], buckets[order[i]])
    {
      RowAt(c, buckets, keys, previous, i);
    }
    RowCount(c, buckets, keys, previous);
    forall k | k in keys
      ensures k in KeysOf(rows)
    {
      var i :| 0 <= i < |order| && order[i] == k;
      assert rows[i] in rows;
    }
    if rows == [] {
      assert forall k :: k in keys <==> k in order;
      NoElements(keys);
    } else {
      assert order[0] in order;
    }
  }

  lemma RowCount(c: Config, buckets: Buckets, keys: set<int>, previous: real)
    requires keys <= buckets.Keys && Counted(buckets)
    ensures |MetricsFrom(c, buckets, keys, previous).0| == |SortedKeys(keys)|
  {
    hide MetricOf;
    RowsForAll(c, buckets, SortedKeys(keys));
  }

  lemma PeakOfDirty(c: Config, buckets: Buckets, keys: set<int>, previous: real)
    requires keys <= buckets.Keys && Counted(buckets)
    ensures
      var peak := MetricsFrom(c, buckets, keys, previous).1;
      && previous <= peak
      && (forall k | k in keys :: Qps(c, buckets[k].count) <= peak)
      && (peak == previous || peak == 0.0 || exists k :: k in keys && Qps(c, buckets[k].count) == peak)
  {
    hide MetricOf, Qps, MaxQps;
    var order := SortedKeys(keys);
    RowsForAll(c, buckets, order);
    var plain, peak := RowsFor(c, buckets, order), MetricsFrom(c, buckets, keys, previous).1;
    MaxQpsBounds(plain);
    forall i | 0 <= i < |order|
      ensures order[i] in keys && plain[i].qps == Qps(c, buckets[order[i]].count)
    {
      assert order[i] in order;
    }
    forall k | k in keys
      ensures Qps(c, buckets[k].count) <= peak
    {
      var i :| 0 <= i < |order| && order[i] == k;
      assert plain[i] in plain;
    }
    if peak != previous && peak != 0.0 {
      var m :| m in plain && m.qps == MaxQps(plain);
      var i :| 0 <= i < |plain| && plain[i] == m;
      assert order[i] in keys;
    }
  }

  /** The rows of a poll: one for each dirty bucket and for no other, and a peak at least
      every one of them that is either the old peak or attained. */
  lemma MetricsFromDirty(c: Config, buckets: Buckets, keys: set<int>, previous: real)
    requires keys <= buckets.Keys && Counted(buckets)
    ensures
      var (rows, peak) := MetricsFrom(c, buckets, keys, previous);
      && KeysOf(rows) == keys
      && (forall m | m in rows :: m.bucketStartMs in keys && RowIs(c, m, m.bucketStartMs, buckets[m.bucketStartMs]))
      && (rows == [] <==> keys == {})
      && previous <= peak
      && (forall k | k in keys :: Qps(c, buckets[k].count) <= peak)
      && (peak == previous || peak == 0.0 || exists k :: k in keys && Qps(c, buckets[k].count) == peak)
  {
    hide MetricsFrom, RowIs, Qps;
    RowsOfDirty(c, buckets, keys, previous);
    PeakOfDirty(c, buckets, keys, previous);
  }
}
