/** The polling reader of a growing JTL file: its state, one poll, one acknowledgement and
    one refresh of the snapshot table (api/app/services/report_metrics.py).

    `Tracker` is the state as a value and the functions on it are the specification; the
    class below is the object the program mutates, each method proved against them. */
module IncrementalMetrics {
  import opened ByteStrings
  import opened Numbers
  import opened Options
  import opened Jtl
  import opened MetricBuckets
  import opened MetricRows

  type Columns = Option<seq<string>>
  type Table = map<int, Metric>

  /** The file as one poll finds it: absent, or present with an identity and the size
      `os.stat` reported; `content` is None when opening it fails. */
  datatype FileView = Missing | Present(identity: (int, int), size: nat, content: Option<Bytes>)

  datatype Tracker = Tracker(
    offset: nat, pending: Bytes, header: Columns, identity: Option<(int, int)>,
    buckets: Buckets, dirty: set<int>, latest: int, finalized: int, peak: real)
  {
    ghost predicate Valid() { dirty <= buckets.Keys && Counted(buckets) }
  }

  const START := Tracker(0, [], None, None, map[], {}, 0, 0, 0.0)

  // ----- specification of one poll ----------------------------------------------

  /** One sample that survived parsing: dropped behind the watermark, else accumulated. */
  function Absorb(c: Config, t: Tracker, s: Sample): Tracker {
    var key := c.Key(s.timestampMs);
    if key < t.finalized then t
    else t.(buckets := AddSample(c, t.buckets, s), dirty := t.dirty + {key}, latest := Max(t.latest, key))
  }

  function FeedLine(c: Config, t: Tracker, line: Bytes): Tracker {
    match MeaningOf(c, t.header, line)
    case Nothing => t
    case Header(columns) => t.(header := Some(columns))
    case Data(s) => Absorb(c, t, s)
  }

  function FeedLines(c: Config, t: Tracker, lines: seq<Bytes>): Tracker {
    if lines == [] then t
    else FeedLine(c, FeedLines(c, t, lines[..|lines| - 1]), lines[|lines| - 1])
  }

  lemma {:induction false} FeedLinesValid(c: Config, t: Tracker, lines: seq<Bytes>)
    requires t.Valid()
    ensures FeedLines(c, t, lines).Valid()
  {
    if lines != [] {
      FeedLinesValid(c, t, lines[..|lines| - 1]);
    }
  }

  /** `source.seek(offset); source.read()`. */
  function From(content: Bytes, offset: nat): Bytes {
    if offset <= |content| then content[offset..] else []
  }

  function Opened(t: Tracker, identity: (int, int), size: nat): Tracker {
    var base := if t.identity.Some? && (t.identity.value != identity || size < t.offset) then START else t;
    base.(identity := Some(identity))
  }

  function Poll(c: Config, t: Tracker, file: FileView): (r: (Tracker, seq<Metric>))
    requires t.Valid()
    ensures r.0.Valid()
  {
    if file.Missing? then (t, [])
    else
      var o := Opened(t, file.identity, file.size);
      if file.content.None? then (o, [])
      else
        var chunk := From(file.content.value, o.offset);
        var read := o.(offset := Max(o.offset, |file.content.value|));
        if chunk == [] then (read, [])
        else
          var split := SplitLines(read.pending + chunk);
          var start := read.(pending := split.rest);
          FeedLinesValid(c, start, split.lines);
          var fed := FeedLines(c, start, split.lines);
          var (rows, peak) := MetricsFrom(c, fed.buckets, fed.dirty, fed.peak);
          (fed.(peak := peak), rows)
  }

  /** A file that was replaced or cut is read from its start, as by a reader that knows nothing. */
  lemma ReplacedFileStartsOver(c: Config, t: Tracker, file: FileView)
    requires t.Valid() && file.Present? && t.identity.Some?
    requires t.identity.value != file.identity || file.size < t.offset
    ensures Poll(c, t, file) == Poll(c, Tracker(0, [], None, None, map[], {}, 0, 0, 0.0), file)
  {}

  lemma PollReturnsDirty(c: Config, t: Tracker, file: FileView)
    requires t.Valid()
    ensures var (polled, rows) := Poll(c, t, file); rows != [] ==> polled.dirty == KeysOf(rows)
  {
    var (polled, rows) := Poll(c, t, file);
    if rows != [] {
      var o := Opened(t, file.identity, file.size);
      var chunk := From(file.content.value, o.offset);
      var split := SplitLines(o.pending + chunk);
      var start := o.(offset := Max(o.offset, |file.content.value|), pending := split.rest);
      FeedLinesValid(c, start, split.lines);
      var fed := FeedLines(c, start, split.lines);
      MetricsFromDirty(c, fed.buckets, fed.dirty, fed.peak);
    }
  }

  /** `_ack_incremental_jtl_metrics`. */
  function Ack(c: Config, t: Tracker, rows: seq<Metric>): Tracker {
    var keepFrom := t.latest - c.Window();
    t.(dirty := t.dirty - KeysOf(rows),
       finalized := Max(t.finalized, keepFrom),
       buckets := map k | k in t.buckets && k >= keepFrom :: t.buckets[k])
  }

  /** `_save_metric_snapshots`: one upsert per row, keyed by the bucket start. */
  function Upsert(table: Table, rows: seq<Metric>): Table {
    if rows == [] then table
    else
      var last := rows[|rows| - 1];
      Upsert(table, rows[..|rows| - 1])[last.bucketStartMs := last]
  }

  /** One turn of `_refresh_running_metric_snapshots`: nothing is acknowledged unless rows
      came back and their save committed. */
  function Refresh(c: Config, t: Tracker, table: Table, file: FileView, saves: bool): (r: (Tracker, Table))
    requires t.Valid()
    ensures r.0.Valid()
  {
    var (polled, rows) := Poll(c, t, file);
    PollReturnsDirty(c, t, file);
    if rows == [] || !saves then (polled, table) else (Ack(c, polled, rows), Upsert(table, rows))
  }

  /** `_list_metric_snapshots`: rows in bucket order, each with the highest stored qps. */
  function ListSnapshots(table: Table): seq<Metric> {
    var keys := SortedKeys(table.Keys);
    var rows := seq(|keys|, i requires 0 <= i < |keys| =>
      assert keys[i] in keys;
      table[keys[i]]);
    WithPeak(rows, MaxQps(rows))
  }

  // ----- the object --------------------------------------------------------------

  class IncrementalMetricState {
    const config: Config
    var offset: nat
    var pendingBytes: Bytes
    var header: Columns
    var fileIdentity: Option<(int, int)>
    var buckets: Buckets
    var dirtyKeys: set<int>
    var latestKey: int
    var finalizedBeforeMs: int
    var tpsPeak: real

    constructor (c: Config)
      ensures config == c && View() == START
    {
      config := c;
      offset, pendingBytes, header, fileIdentity := 0, [], None, None;
      buckets, dirtyKeys, latestKey, finalizedBeforeMs, tpsPeak := map[], {}, 0, 0, 0.0;
    }

    ghost function View(): Tracker
      reads this
    {
      Tracker(offset, pendingBytes, header, fileIdentity, buckets, dirtyKeys, latestKey, finalizedBeforeMs, tpsPeak)
    }

    method Reset()
      modifies this
      ensures View() == START.(identity := old(fileIdentity))
    {
      offset, pendingBytes, header := 0, [], None;
      buckets, dirtyKeys := map[], {};
      latestKey, finalizedBeforeMs, tpsPeak := 0, 0, 0.0;
    }

    /** The body of the loop over the finished lines. */
    method ConsumeLine(raw: Bytes)
      modifies this
      ensures View() == FeedLine(config, old(View()), raw)
    {
      var line := StripCr(raw);
      if line == [] {
        return;
      }
      var values := config.decoder.fields(line);
      if values.None? {
        return;
      }
      if header.None? {
        header := values;
        return;
      }
      if |values.value| != |header.value| {
        return;
      }
      var row := RowOf(header.value, values.value);
      var rowKey := Some(0);
      if Get(row, "timeStamp") != "" {
        rowKey := config.decoder.toInt(Get(row, "timeStamp"));
      }
      if rowKey.None? {
        return;
      }
      if config.Key(rowKey.value) < finalizedBeforeMs {
        return;
      }
      var updated, key := AppendMetricRow(config, buckets, row);
      buckets := updated;
      if key.Some? {
        dirtyKeys := dirtyKeys + {key.value};
        latestKey := Max(latestKey, key.value);
      }
    }

    /** `_parse_incremental_jtl_metrics`. */
    method ParseIncremental(file: FileView) returns (rows: seq<Metric>)
      requires View().Valid()
      modifies this
      ensures (View(), rows) == Poll(config, old(View()), file)
      ensures View().Valid()
    {
      if file.Missing? {
        return [];
      }
      if fileIdentity.Some? && (fileIdentity.value != file.identity || file.size < offset) {
        Reset();
      }
      fileIdentity := Some(file.identity);
      if file.content.None? {
        return [];
      }
      var chunk := From(file.content.value, offset);
      offset := Max(offset, |file.content.value|);
      if chunk == [] {
        return [];
      }
      var parts := SplitLines(pendingBytes + chunk);
      pendingBytes := parts.rest;
      ghost var start := View();
      for i := 0 to |parts.lines|
        invariant View() == FeedLines(config, start, parts.lines[..i])
      {
        assert parts.lines[..i + 1][..i] == parts.lines[..i];
        ConsumeLine(parts.lines[i]);
      }
      assert parts.lines[..|parts.lines|] == parts.lines;
      FeedLinesValid(config, start, parts.lines);
      rows, tpsPeak := MetricsFromBuckets(config, buckets, dirtyKeys, tpsPeak);
    }

    /** `_ack_incremental_jtl_metrics`. */
    method Acknowledge(rows: seq<Metric>)
      modifies this
      ensures View() == Ack(config, old(View()), rows)
    {
      for i := 0 to |rows|
        invariant View() == old(View()).(dirty := old(dirtyKeys) - KeysOf(rows[..i]))
      {
        assert rows[..i + 1] == rows[..i] + [rows[i]];
        dirtyKeys := dirtyKeys - {rows[i].bucketStartMs};
      }
      assert rows[..|rows|] == rows;
      var keepFrom := latestKey - config.Window();
      finalizedBeforeMs := Max(finalizedBeforeMs, keepFrom);
      var stale := set k | k in buckets && k < keepFrom;
      buckets := buckets - stale;
      assert buckets == map k | k in old(buckets) && k >= keepFrom :: old(buckets)[k];
    }
  }

  /** The table of metric snapshots of one report and window. */
  class SnapshotTable {
    var rows: Table

    constructor ()
      ensures rows == map[]
    {
      rows := map[];
    }

    method Save(metrics: seq<Metric>)
      modifies this
      ensures rows == Upsert(old(rows), metrics)
    {
      for i := 0 to |metrics|
        invariant rows == Upsert(old(rows), metrics[..i])
      {
        assert metrics[..i + 1][..i] == metrics[..i];
        rows := rows[metrics[i].bucketStartMs := metrics[i]];
      }
      assert metrics[..|metrics|] == metrics;
    }
  }

  /** One turn of the running-report loop over the live objects. */
  method RefreshRunning(state: IncrementalMetricState, table: SnapshotTable, file: FileView, saves: bool)
    requires state.View().Valid()
    modifies state, table
    ensures (state.View(), table.rows) ==
      Refresh(state.config, old(state.View()), old(table.rows), file, saves)
  {
    var rows := state.ParseIncremental(file);
    if rows == [] || !saves {
      return;
    }
    table.Save(rows);
    state.Acknowledge(rows);
  }
}
