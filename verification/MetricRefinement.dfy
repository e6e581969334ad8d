/** The polling reader refines the one-pass parser, however the file is cut into polls
    and whichever saves fail. */
module MetricRefinement {
  import opened ByteStrings
  import opened Numbers
  import opened Options
  import opened Jtl
  import opened MetricBuckets
  import opened MetricRows
  import opened IncrementalMetrics

  /** One turn of the refresh loop: what the file looked like, whether the save committed. */
  datatype Turn = Turn(file: FileView, saves: bool)

  function Prior(turns: seq<Turn>): seq<Turn>
    requires turns != []
  {
    turns[..|turns| - 1]
  }

  function Latest(turns: seq<Turn>): Turn
    requires turns != []
  {
    turns[|turns| - 1]
  }

  function After(c: Config, turns: seq<Turn>): (r: (Tracker, Table))
    ensures r.0.Valid()
  {
    if turns == [] then (START, map[])
    else
      var (t, table) := After(c, Prior(turns));
      Refresh(c, t, table, Latest(turns).file, Latest(turns).saves)
  }

  /** The content found by the last turn that could read the file. */
  function Seen(turns: seq<Turn>): Bytes {
    if turns == [] then []
    else
      var f := Latest(turns).file;
      if f.Present? && f.content.Some? then f.content.value else Seen(Prior(turns))
  }

  function Identity(turns: seq<Turn>): Option<(int, int)> {
    if turns == [] then None
    else
      var f := Latest(turns).file;
      if f.Present? then Some(f.identity) else Identity(Prior(turns))
  }

  /** The file keeps its identity and only grows between turns. */
  ghost predicate AppendOnly(turns: seq<Turn>) {
    turns == [] ||
    (&& AppendOnly(Prior(turns))
     && var f := Latest(turns).file;
        f.Present? ==>
          && (Identity(Prior(turns)).Some? ==> f.identity == Identity(Prior(turns)).value)
          && |Seen(Prior(turns))| <= f.size
          && (f.content.Some? ==> Seen(Prior(turns)) <= f.content.value))
  }

  ghost predicate AllSaved(turns: seq<Turn>) { forall turn | turn in turns :: turn.saves }

  function LinesOf(content: Bytes): seq<Bytes> { SplitLines(content).lines }

  /** Every sample of the finished lines of a file. */
  function SamplesOf(c: Config, content: Bytes): seq<Sample> { SamplesIn(c, None, LinesOf(content)) }

  /** The samples of windows at or after the watermark. */
  function Kept(c: Config, finalized: int, samples: seq<Sample>): seq<Sample> {
    if samples == [] then []
    else
      var s := samples[|samples| - 1];
      Kept(c, finalized, samples[..|samples| - 1]) + (if c.Key(s.timestampMs) >= finalized then [s] else [])
  }

  function NewLines(t: Tracker, file: FileView): seq<Bytes> {
    if file.Present? && file.content.Some?
    then SplitLines(t.pending + From(file.content.value, t.offset)).lines
    else []
  }

  /** The samples that passed the watermark, in the order they were read. */
  function Accepted(c: Config, turns: seq<Turn>): seq<Sample> {
    if turns == [] then []
    else
      var t := After(c, Prior(turns)).0;
      Accepted(c, Prior(turns)) + Kept(c, t.finalized, SamplesIn(c, t.header, NewLines(t, Latest(turns).file)))
  }

  // ----- the byte position -----------------------------------------------------------

  lemma {:induction false} FeedKeeps(c: Config, t: Tracker, lines: seq<Bytes>)
    ensures
      var r := FeedLines(c, t, lines);
      && r.header == HeaderAfter(c, t.header, lines)
      && r.offset == t.offset && r.pending == t.pending && r.identity == t.identity
      && r.finalized == t.finalized && r.peak == t.peak
  {
    if lines != [] {
      FeedKeeps(c, t, lines[..|lines| - 1]);
    }
  }

  ghost predicate AtPosition(c: Config, t: Tracker, seen: Bytes, identity: Option<(int, int)>) {
    && t.offset == |seen|
    && t.pending == SplitLines(seen).rest
    && t.header == HeaderAfter(c, None, LinesOf(seen))
    && t.identity == identity
  }

  lemma PollPosition(c: Config, t: Tracker, seen: Bytes, file: FileView)
    requires t.Valid() && AtPosition(c, t, seen, t.identity) && file.Present?
    requires t.identity.Some? ==> file.identity == t.identity.value
    requires |seen| <= file.size && (file.content.Some? ==> seen <= file.content.value)
    ensures AtPosition(c, Poll(c, t, file).0,
                       if file.content.Some? then file.content.value else seen, Some(file.identity))
  {
    if file.content.Some? {
      NewLinesExtend(c, t, seen, file.content.value);
      var split := SplitLines(t.pending + From(file.content.value, t.offset));
      FeedKeeps(c, Opened(t, file.identity, file.size).(offset := |file.content.value|, pending := split.rest), split.lines);
    }
  }

  /** The bytes up to the offset are exactly the finished lines followed by the partial one,
      so every finished line has been consumed once, in order. */
  lemma {:induction false} ConsumedExactlyOnce(c: Config, turns: seq<Turn>)
    requires AppendOnly(turns)
    ensures AtPosition(c, After(c, turns).0, Seen(turns), Identity(turns))
    ensures Unsplit(LinesOf(Seen(turns))) + After(c, turns).0.pending == Seen(turns)
  {
    SplitIsExact(Seen(turns));
    if turns != [] {
      var prior, f := Prior(turns), Latest(turns).file;
      ConsumedExactlyOnce(c, prior);
      if f.Present? {
        PollPosition(c, After(c, prior).0, Seen(prior), f);
      }
    }
  }

  /** What one poll reads beyond the old content is exactly the new finished lines. */
  lemma NewLinesExtend(c: Config, t: Tracker, seen: Bytes, content: Bytes)
    requires seen <= content && t.offset == |seen| && t.pending == SplitLines(seen).rest
    ensures
      var s := SplitLines(t.pending + From(content, t.offset));
      LinesOf(content) == LinesOf(seen) + s.lines && SplitLines(content).rest == s.rest
    ensures From(content, t.offset) == [] ==> content == seen
    ensures
      var h := HeaderAfter(c, None, LinesOf(seen));
      && HeaderAfter(c, None, LinesOf(content)) ==
           HeaderAfter(c, h, SplitLines(t.pending + From(content, t.offset)).lines)
      && SamplesOf(c, content) ==
           SamplesOf(c, seen) + SamplesIn(c, h, SplitLines(t.pending + From(content, t.offset)).lines)
  {
    assert content == seen + content[|seen|..];
    SplitInPieces(seen, content[|seen|..]);
    SamplesConcat(c, None, LinesOf(seen), SplitLines(t.pending + From(content, t.offset)).lines);
  }

  lemma {:induction false} Upserted(table: Table, rows: seq<Metric>)
    ensures Upsert(table, rows).Keys == table.Keys + KeysOf(rows)
    ensures forall k | k in KeysOf(rows) :: Upsert(table, rows)[k] in rows && Upsert(table, rows)[k].bucketStartMs == k
    ensures forall k | k in table && k !in KeysOf(rows) :: Upsert(table, rows)[k] == table[k]
  {
    if rows != [] {
      Upserted(table, rows[..|rows| - 1]);
      assert rows == rows[..|rows| - 1] + [rows[|rows| - 1]];
    }
  }

  // ----- the invariant -----------------------------------------------------------------

  /** The buckets in memory are those of all accepted samples, but for old ones given up. */
  ghost predicate InMemory(c: Config, t: Tracker, b: Buckets) {
    && Counted(b)
    && (forall k | k in t.buckets :: k in b && t.buckets[k] == b[k])
    && (forall k | k in b && k !in t.buckets :: k < t.finalized)
    && t.dirty <= t.buckets.Keys
    && (forall k | k in b :: 0 <= k <= t.latest && c.Key(k) == k)
    && (t.latest == 0 || t.latest in b)
    && t.finalized <= Max(0, t.latest - c.Window())
  }

  /** Every window that is not dirty is stored as it is. */
  ghost predicate Stored(c: Config, t: Tracker, table: Table, b: Buckets) {
    && (forall k | k in b && k !in t.dirty :: k in table && RowIs(c, table[k], k, b[k]))
    && table.Keys <= b.Keys
  }

  /** The peak covers the windows that are not dirty, and is one of all. */
  ghost predicate PeakOf(c: Config, t: Tracker, b: Buckets) {
    && (forall k | k in b && k !in t.dirty :: Qps(c, b[k].count) <= t.peak)
    && 0.0 <= t.peak
    && (t.peak == 0.0 || exists k :: k in b && t.peak <= Qps(c, b[k].count))
  }

  /** Relates the live state and the stored table to the samples accepted so far. */
  ghost predicate Tracks(c: Config, t: Tracker, table: Table, acc: seq<Sample>) {
    var b := BucketsOf(c, acc);
    InMemory(c, t, b) && Stored(c, t, table, b) && PeakOf(c, t, b)
  }

  /** Memory and specification update the same bucket in the same way. */
  lemma AbsorbStep(c: Config, t: Tracker, table: Table, acc: seq<Sample>, s: Sample)
    requires Tracks(c, t, table, acc) && c.Key(s.timestampMs) >= t.finalized
    ensures
      var key, b := c.Key(s.timestampMs), BucketsOf(c, acc);
      var grown := AddToBucket(BucketAt(b, key), s);
      && Absorb(c, t, s).buckets == t.buckets[key := grown]
      && BucketsOf(c, acc + [s]) == b[key := grown]
      && grown.count > 0
      && (key in b ==> Qps(c, b[key].count) <= Qps(c, grown.count))
  {
    hide MetricOf, Qps, FloorTo, RowIs;
    var key, b := c.Key(s.timestampMs), BucketsOf(c, acc);
    assert (acc + [s])[..|acc|] == acc;
    assert key in b ==> key in t.buckets;
    if key in b {
      QpsMonotone(c, b[key].count, b[key].count + 1);
    }
  }

  lemma AbsorbTracks(c: Config, t: Tracker, table: Table, acc: seq<Sample>, s: Sample)
    requires Tracks(c, t, table, acc) && s.timestampMs > 0 && c.Key(s.timestampMs) >= t.finalized
    ensures Tracks(c, Absorb(c, t, s), table, acc + [s])
  {
    hide MetricOf, Qps, FloorTo, RowIs, AddToBucket, BucketsOf, AddSample;
    FloorToRange(s.timestampMs, c.Window());
    AbsorbStep(c, t, table, acc, s);
    var b, b' := BucketsOf(c, acc), BucketsOf(c, acc + [s]);
    if t.peak != 0.0 {
      var k :| k in b && t.peak <= Qps(c, b[k].count);
      assert k in b' && t.peak <= Qps(c, b'[k].count);
    }
  }

  function KeptOf(c: Config, finalized: int, m: Meaning): seq<Sample> {
    if m.Data? && c.Key(m.sample.timestampMs) >= finalized then [m.sample] else []
  }

  lemma KeptStep(c: Config, t: Tracker, acc: seq<Sample>, lines: seq<Bytes>)
    requires lines != []
    ensures
      var init := FeedLines(c, t, lines[..|lines| - 1]);
      acc + Kept(c, t.finalized, SamplesIn(c, t.header, lines)) ==
        acc + Kept(c, t.finalized, SamplesIn(c, t.header, lines[..|lines| - 1])) +
        KeptOf(c, init.finalized, MeaningOf(c, init.header, lines[|lines| - 1]))
  {
    var init := lines[..|lines| - 1];
    FeedKeeps(c, t, init);
    var before := SamplesIn(c, t.header, init);
    var m := MeaningOf(c, HeaderAfter(c, t.header, init), lines[|lines| - 1]);
    if m.Data? {
      assert (before + [m.sample])[..|before|] == before;
    } else {
      assert before + [] == before;
    }
  }

  lemma FeedLineTracks(c: Config, t: Tracker, table: Table, acc: seq<Sample>, line: Bytes)
    requires Tracks(c, t, table, acc)
    ensures Tracks(c, FeedLine(c, t, line), table, acc + KeptOf(c, t.finalized, MeaningOf(c, t.header, line)))
  {
    var m := MeaningOf(c, t.header, line);
    if KeptOf(c, t.finalized, m) == [] {
      assert acc + [] == acc;
    } else {
      AbsorbTracks(c, t, table, acc, m.sample);
    }
  }

  lemma {:induction false} FeedTracks(c: Config, t: Tracker, table: Table, acc: seq<Sample>, lines: seq<Bytes>)
    requires Tracks(c, t, table, acc)
    ensures Tracks(c, FeedLines(c, t, lines), table, acc + Kept(c, t.finalized, SamplesIn(c, t.header, lines)))
  {
    if lines == [] {
      assert acc + [] == acc;
    } else {
      var init := lines[..|lines| - 1];
      FeedTracks(c, t, table, acc, init);
      KeptStep(c, t, acc, lines);
      FeedLineTracks(c, FeedLines(c, t, init), table, acc + Kept(c, t.finalized, SamplesIn(c, t.header, init)),
                     lines[|lines| - 1]);
    }
  }

  // ----- one turn ----------------------------------------------------------------------

  /** Between turns the peak covers every accepted window, dirty or not. */
  ghost predicate Settled(c: Config, t: Tracker, table: Table, acc: seq<Sample>) {
    && Tracks(c, t, table, acc)
    && forall k | k in BucketsOf(c, acc) :: Qps(c, BucketsOf(c, acc)[k].count) <= t.peak
  }

  /** The rows are those of the dirty buckets. */
  ghost predicate RowsAreDirty(c: Config, t: Tracker, rows: seq<Metric>) {
    && KeysOf(rows) == t.dirty
    && forall m | m in rows :: m.bucketStartMs in t.buckets && RowIs(c, m, m.bucketStartMs, t.buckets[m.bucketStartMs])
  }

  lemma PeakSettles(c: Config, fed: Tracker, table: Table, acc: seq<Sample>)
    requires Tracks(c, fed, table, acc) && fed.Valid()
    ensures
      var (rows, peak) := MetricsFrom(c, fed.buckets, fed.dirty, fed.peak);
      && Settled(c, fed.(peak := peak), table, acc)
      && RowsAreDirty(c, fed.(peak := peak), rows)
      && (rows == [] <==> fed.dirty == {})
  {
    hide MetricOf, Qps, MetricsFrom, BucketsOf, Summarises;
    MetricsFromDirty(c, fed.buckets, fed.dirty, fed.peak);
    var b := BucketsOf(c, acc);
    var (rows, peak) := MetricsFrom(c, fed.buckets, fed.dirty, fed.peak);
    if peak != 0.0 && peak != fed.peak {
      var k :| k in fed.dirty && Qps(c, fed.buckets[k].count) == peak;
      assert k in b && peak <= Qps(c, b[k].count);
    }
  }

  /** A poll that continues the same file. */
  ghost predicate Continues(t: Tracker, file: FileView) {
    file.Present? ==>
      && (t.identity.Some? ==> file.identity == t.identity.value)
      && t.offset <= file.size
      && NEWLINE !in t.pending
  }

  lemma PollSettles(c: Config, t: Tracker, table: Table, acc: seq<Sample>, file: FileView)
    requires Settled(c, t, table, acc) && t.Valid() && Continues(t, file)
    ensures
      var (polled, rows) := Poll(c, t, file);
      && Settled(c, polled, table, acc + Kept(c, t.finalized, SamplesIn(c, t.header, NewLines(t, file))))
      && (rows != [] ==> RowsAreDirty(c, polled, rows))
      && (rows == [] && t.dirty == {} ==> polled.dirty == {})
      && polled.finalized == t.finalized
  {
    hide MetricOf, Qps, BucketsOf, FeedLines, MeaningOf;
    var lines := NewLines(t, file);
    if file.Missing? || file.content.None? {
      assert acc + [] == acc;
    } else {
      var chunk := From(file.content.value, t.offset);
      if chunk == [] {
        SplitRest(t.pending);
        assert t.pending + chunk == t.pending;
        assert acc + [] == acc;
      } else {
        var split := SplitLines(t.pending + chunk);
        var start := Opened(t, file.identity, file.size)
                     .(offset := Max(t.offset, |file.content.value|), pending := split.rest);
        assert Tracks(c, start, table, acc);
        FeedTracks(c, start, table, acc, split.lines);
        FeedLinesValid(c, start, split.lines);
        FeedKeeps(c, start, split.lines);
        PeakSettles(c, FeedLines(c, start, split.lines), table,
                    acc + Kept(c, t.finalized, SamplesIn(c, t.header, lines)));
      }
    }
  }

  /** An acknowledged save stores every accepted window. */
  lemma AckStores(c: Config, t: Tracker, table: Table, b: Buckets, rows: seq<Metric>)
    requires InMemory(c, t, b) && Stored(c, t, table, b) && RowsAreDirty(c, t, rows)
    ensures Stored(c, Ack(c, t, rows), Upsert(table, rows), b) && Ack(c, t, rows).dirty == {}
  {
    hide MetricOf, Peaked, Upsert, RowIs;
    Upserted(table, rows);
    forall k | k in b
      ensures k in Upsert(table, rows) && RowIs(c, Upsert(table, rows)[k], k, b[k])
    {
      if k in t.dirty {
        assert Upsert(table, rows)[k] in rows;
      }
    }
  }

  lemma AckRemembers(c: Config, t: Tracker, b: Buckets, rows: seq<Metric>)
    requires InMemory(c, t, b) && Ack(c, t, rows).dirty == {}
    ensures InMemory(c, Ack(c, t, rows), b)
  {}

  lemma AckSettles(c: Config, t: Tracker, table: Table, acc: seq<Sample>, rows: seq<Metric>)
    requires Settled(c, t, table, acc) && RowsAreDirty(c, t, rows)
    ensures Settled(c, Ack(c, t, rows), Upsert(table, rows), acc)
    ensures Ack(c, t, rows).dirty == {}
  {
    hide InMemory, Stored, RowsAreDirty, BucketsOf, Upsert, KeysOf, Qps;
    AckStores(c, t, table, BucketsOf(c, acc), rows);
    AckRemembers(c, t, BucketsOf(c, acc), rows);
  }

  lemma TurnSettles(c: Config, t: Tracker, table: Table, acc: seq<Sample>, turn: Turn)
    requires Settled(c, t, table, acc) && t.Valid() && Continues(t, turn.file)
    ensures
      var (t', table') := Refresh(c, t, table, turn.file, turn.saves);
      && Settled(c, t', table', acc + Kept(c, t.finalized, SamplesIn(c, t.header, NewLines(t, turn.file))))
      && (turn.saves && t.dirty == {} ==> t'.dirty == {})
      && t.finalized <= t'.finalized
      && (turn.saves && Poll(c, t, turn.file).1 != [] ==> t'.dirty == {} && t'.latest - c.Window() <= t'.finalized)
  {
    PollSettles(c, t, table, acc, turn.file);
    var (polled, rows) := Poll(c, t, turn.file);
    if rows != [] && turn.saves {
      AckSettles(c, polled, table,
                 acc + Kept(c, t.finalized, SamplesIn(c, t.header, NewLines(t, turn.file))), rows);
    }
  }

  /** The invariant holds after any run of turns over an append-only file. */
  lemma {:induction false} RunSettles(c: Config, turns: seq<Turn>)
    requires AppendOnly(turns)
    ensures Settled(c, After(c, turns).0, After(c, turns).1, Accepted(c, turns))
    ensures AllSaved(turns) ==> After(c, turns).0.dirty == {}
  {
    if turns != [] {
      var prior := Prior(turns);
      RunSettles(c, prior);
      ConsumedExactlyOnce(c, prior);
      SplitIsExact(Seen(prior));
      var (t, table) := After(c, prior);
      TurnSettles(c, t, table, Accepted(c, prior), Latest(turns));
      assert AllSaved(turns) ==> AllSaved(prior) && Latest(turns) in turns;
    }
  }

  // ----- the theorems --------------------------------------------------------------------

  /** The stored snapshots, as they are listed, are the one-pass result over the accepted
      samples: every column, the peak included. */
  lemma TableIsBatchOfAccepted(c: Config, turns: seq<Turn>)
    requires AppendOnly(turns) && After(c, turns).0.dirty == {}
    ensures ListSnapshots(After(c, turns).1) == BatchMetrics(c, Accepted(c, turns))
  {
    hide MetricOf, Qps, BatchMetrics, BucketsOf, ListSnapshots, Refresh, Accepted, After;
    RunSettles(c, turns);
    var b, table := BucketsOf(c, Accepted(c, turns)), After(c, turns).1;
    forall k | k in b.Keys
      ensures k in table.Keys
    {
      assert k in b;
    }
    assert table.Keys == b.Keys;
    TableListsAs(c, table, Accepted(c, turns));
  }

  lemma PeakedTwice(m: Metric, p: real, q: real)
    ensures Peaked(Peaked(m, p), q) == Peaked(m, q)
  {}

  lemma TableListsAs(c: Config, table: Table, samples: seq<Sample>)
    requires
      var b := BucketsOf(c, samples);
      Counted(b) && table.Keys == b.Keys && forall k | k in b :: RowIs(c, table[k], k, b[k])
    ensures ListSnapshots(table) == BatchMetrics(c, samples)
  {
    hide MetricOf, Qps, BucketsOf, Peaked, RowsFor, MaxQps, SortedKeys;
    var b := BucketsOf(c, samples);
    var keys := SortedKeys(b.Keys);
    RowsForAll(c, b, keys);
    var rows := RowsFor(c, b, keys);
    assert SortedKeys(table.Keys) == keys;
    var stored := seq(|keys|, i requires 0 <= i < |keys| =>
      assert keys[i] in keys;
      table[keys[i]]);
    forall i | 0 <= i < |keys|
      ensures stored[i] == Peaked(rows[i], stored[i].tpsPeak)
    {
      assert keys[i] in keys;
    }
    MaxQpsOf(stored, rows);
    MaxQpsBounds(rows);
    var peak := MaxQps(rows);
    forall i | 0 <= i < |keys|
      ensures WithPeak(stored, peak)[i] == WithPeak(rows, peak)[i]
    {
      PeakedTwice(rows[i], stored[i].tpsPeak, peak);
    }
    assert WithPeak(stored, peak) == WithPeak(rows, peak);
  }

  /** The running peak is the peak of the one-pass result over the accepted samples. */
  lemma PeakIsBatchPeak(c: Config, turns: seq<Turn>)
    requires AppendOnly(turns)
    ensures After(c, turns).0.peak == MaxQps(BatchMetrics(c, Accepted(c, turns)))
  {
    hide MetricOf, Qps, BucketsOf, Refresh, Accepted, After, RowIs, RowsFor, MaxQps, SortedKeys;
    RunSettles(c, turns);
    var acc, t := Accepted(c, turns), After(c, turns).0;
    var b := BucketsOf(c, acc);
    MetricsFromDirty(c, b, b.Keys, 0.0);
    var (rows, peak) := MetricsFrom(c, b, b.Keys, 0.0);
    MaxQpsOf(rows, RowsFor(c, b, SortedKeys(b.Keys)));
    MaxQpsBounds(rows);
    if t.peak != 0.0 {
      var k :| k in b && t.peak <= Qps(c, b[k].count);
    }
  }

  lemma AckTrims(c: Config, turns: seq<Turn>)
    requires turns != [] && Latest(turns).saves
    requires Poll(c, After(c, Prior(turns)).0, Latest(turns).file).1 != []
    ensures
      var t := After(c, turns).0;
      t.dirty == {} && t.latest - c.Window() <= t.finalized && forall k | k in t.buckets :: t.latest - c.Window() <= k
  {
    PollReturnsDirty(c, After(c, Prior(turns)).0, Latest(turns).file);
  }

  /** After a saved turn at most two buckets stay in memory: the newest and the one before. */
  lemma TwoBucketsRemain(c: Config, turns: seq<Turn>)
    requires AppendOnly(turns) && turns != [] && Latest(turns).saves
    requires Poll(c, After(c, Prior(turns)).0, Latest(turns).file).1 != []
    ensures
      var t := After(c, turns).0;
      && t.dirty == {}
      && t.buckets.Keys <= {t.latest - c.Window(), t.latest}
  {
    hide MetricOf, Qps, BucketsOf, Accepted, RowIs, After, Refresh, Poll;
    RunSettles(c, turns);
    AckTrims(c, turns);
    var t := After(c, turns).0;
    forall k | k in t.buckets
      ensures k == t.latest || k == t.latest - c.Window()
    {
      assert k in BucketsOf(c, Accepted(c, turns));
      if t.latest == 0 {
        FloorToRange(0, c.Window());
      } else {
        AdjacentWindows(k, t.latest, c.Window());
      }
    }
  }

  // ----- a file replaced ------------------------------------------------------------------

  /** The turn finds another file than the one read before, or less of it. */
  ghost predicate Replaces(t: Tracker, turn: Turn) {
    turn.file.Present? && t.identity.Some? && (t.identity.value != turn.file.identity || turn.file.size < t.offset)
  }

  /** From such a turn on the reader is as if it had begun with it. */
  lemma {:induction false} ReplacementForgets(c: Config, turns: seq<Turn>, turn: Turn, more: seq<Turn>)
    requires Replaces(After(c, turns).0, turn)
    ensures After(c, turns + [turn] + more).0 == After(c, [turn] + more).0
    decreases |more|
  {
    hide Poll, Ack, Upsert;
    if more == [] {
      assert turns + [turn] + [] == turns + [turn] && [turn] + [] == [turn];
      assert Prior(turns + [turn]) == turns && Prior([turn]) == [] && Latest(turns + [turn]) == turn;
      ReplacedFileStartsOver(c, After(c, turns).0, turn.file);
    } else {
      var init, last := more[..|more| - 1], more[|more| - 1];
      assert Prior(turns + [turn] + more) == turns + [turn] + init && Prior([turn] + more) == [turn] + init;
      assert Latest(turns + [turn] + more) == last == Latest([turn] + more);
      ReplacementForgets(c, turns, turn, init);
    }
  }
}
