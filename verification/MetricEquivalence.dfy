/** When the polling reader and the one-pass parser agree for every division of the file
    into polls, and what repairs the table when they do not. */
module MetricEquivalence {
  import opened ByteStrings
  import opened Numbers
  import opened Options
  import opened Jtl
  import opened MetricBuckets
  import opened MetricRows
  import opened IncrementalMetrics
  import opened MetricRefinement

  // ----- late samples --------------------------------------------------------------------

  /** No sample is more than one window older than a sample before it. */
  ghost predicate Timely(c: Config, samples: seq<Sample>) {
    forall i, j | 0 <= i < j < |samples| ::
      c.Key(samples[i].timestampMs) - c.Window() <= c.Key(samples[j].timestampMs)
  }

  lemma {:induction false} AllKept(c: Config, finalized: int, samples: seq<Sample>)
    requires forall s | s in samples :: finalized <= c.Key(s.timestampMs)
    ensures Kept(c, finalized, samples) == samples
  {
    if samples != [] {
      AllKept(c, finalized, samples[..|samples| - 1]);
      assert samples == samples[..|samples| - 1] + [samples[|samples| - 1]];
    }
  }

  lemma SeenGrows(c: Config, turns: seq<Turn>)
    requires AppendOnly(turns) && turns != []
    ensures
      var t := After(c, Prior(turns)).0;
      SamplesOf(c, Seen(turns)) ==
        SamplesOf(c, Seen(Prior(turns))) + SamplesIn(c, t.header, NewLines(t, Latest(turns).file))
  {
    var prior, f := Prior(turns), Latest(turns).file;
    ConsumedExactlyOnce(c, prior);
    var t := After(c, prior).0;
    if f.Present? && f.content.Some? {
      NewLinesExtend(c, t, Seen(prior), f.content.value);
    } else {
      assert SamplesOf(c, Seen(prior)) + [] == SamplesOf(c, Seen(prior));
    }
  }

  /** The watermark never passes the newest accepted window less one. */
  lemma WatermarkBehind(c: Config, turns: seq<Turn>, s: Sample)
    requires AppendOnly(turns) && s.timestampMs > 0
    requires forall a | a in Accepted(c, turns) :: c.Key(a.timestampMs) - c.Window() <= c.Key(s.timestampMs)
    ensures After(c, turns).0.finalized <= c.Key(s.timestampMs)
  {
    hide MetricOf, Qps, RowIs, After, Accepted;
    RunSettles(c, turns);
    FloorToRange(s.timestampMs, c.Window());
    var t, acc := After(c, turns).0, Accepted(c, turns);
    if t.latest != 0 {
      BucketMeaning(c, acc, t.latest);
      SlotNonEmpty(c, acc, t.latest);
    }
  }

  lemma TimelyParts(c: Config, before: seq<Sample>, more: seq<Sample>)
    requires Timely(c, before + more)
    ensures Timely(c, before)
    ensures forall a, s | a in before && s in more :: c.Key(a.timestampMs) - c.Window() <= c.Key(s.timestampMs)
  {
    var all := before + more;
    forall i, j | 0 <= i < j < |before|
      ensures c.Key(before[i].timestampMs) - c.Window() <= c.Key(before[j].timestampMs)
    {
      assert all[i] == before[i] && all[j] == before[j];
    }
    forall a, s | a in before && s in more
      ensures c.Key(a.timestampMs) - c.Window() <= c.Key(s.timestampMs)
    {
      var i :| 0 <= i < |before| && before[i] == a;
      var j :| 0 <= j < |more| && more[j] == s;
      assert all[i] == a && all[|before| + j] == s;
    }
  }

  /** On a timely file nothing is ever dropped, whatever the polls and failed saves. */
  lemma {:induction false} TimelyKeepsAll(c: Config, turns: seq<Turn>)
    requires AppendOnly(turns) && Timely(c, SamplesOf(c, Seen(turns)))
    ensures Accepted(c, turns) == SamplesOf(c, Seen(turns))
  {
    if turns != [] {
      hide Timely, After, SamplesOf, Seen;
      var prior := Prior(turns);
      var t := After(c, prior).0;
      SeenGrows(c, turns);
      var more := SamplesIn(c, t.header, NewLines(t, Latest(turns).file));
      TimelyParts(c, SamplesOf(c, Seen(prior)), more);
      TimelyKeepsAll(c, prior);
      SamplesArePositive(c, t.header, NewLines(t, Latest(turns).file));
      forall s | s in more
        ensures t.finalized <= c.Key(s.timestampMs)
      {
        WatermarkBehind(c, prior, s);
      }
      AllKept(c, t.finalized, more);
    }
  }

  /** Refinement: on a timely append-only file, after any run of polls whose last changes are
      saved, the listed snapshots equal the one-pass result in every column. */
  lemma TimelyRefinesBatch(c: Config, turns: seq<Turn>)
    requires AppendOnly(turns) && Timely(c, SamplesOf(c, Seen(turns)))
    requires After(c, turns).0.dirty == {}
    ensures ListSnapshots(After(c, turns).1) == BatchMetrics(c, SamplesOf(c, Seen(turns)))
  {
    TimelyKeepsAll(c, turns);
    TableIsBatchOfAccepted(c, turns);
  }

  // ----- the converse -----------------------------------------------------------------------

  /** The batch rows determine how many samples each window has. */
  lemma BatchCounts(c: Config, samples: seq<Sample>, key: int)
    ensures (exists m :: m in BatchMetrics(c, samples) && m.bucketStartMs == key) <==> Slot(c, samples, key) != []
    ensures forall m | m in BatchMetrics(c, samples) && m.bucketStartMs == key :: m.sampleCount == |Slot(c, samples, key)|
  {
    hide MetricOf, Qps, Summarises;
    var b := BucketsOf(c, samples);
    BucketMeaning(c, samples, key);
    BucketsCounted(c, samples);
    MetricsFromDirty(c, b, b.Keys, 0.0);
    BucketCount(c, samples, key);
  }

  lemma BucketCount(c: Config, samples: seq<Sample>, key: int)
    ensures BucketAt(BucketsOf(c, samples), key).count == |Slot(c, samples, key)|
  {
    BucketMeaning(c, samples, key);
  }

  lemma BucketsCounted(c: Config, samples: seq<Sample>)
    ensures Counted(BucketsOf(c, samples))
  {
    forall k | k in BucketsOf(c, samples)
      ensures BucketsOf(c, samples)[k].count > 0
    {
      BucketMeaning(c, samples, k);
      BucketCount(c, samples, k);
    }
  }

  lemma {:induction false} KeptSlot(c: Config, finalized: int, samples: seq<Sample>, key: int)
    requires key < finalized
    ensures Slot(c, Kept(c, finalized, samples), key) == []
  {
    hide FloorTo;
    if samples != [] {
      var init, s := samples[..|samples| - 1], samples[|samples| - 1];
      KeptSlot(c, finalized, init, key);
      var kept := Kept(c, finalized, init);
      assert (kept + [s])[..|kept|] == kept;
      assert kept + [] == kept;
    }
  }

  function Whole(content: Bytes): Turn { Turn(Present((0, 0), |content|, Some(content)), true) }

  /** A first poll up to a line boundary, then the rest. */
  function TwoPolls(content: Bytes, m: nat): seq<Turn>
    requires m <= |LinesOf(content)|
  {
    [Whole(Unsplit(LinesOf(content)[..m])), Whole(content)]
  }

  lemma {:induction false} UnsplitPrefix(lines: seq<Bytes>, m: nat)
    requires m <= |lines|
    ensures Unsplit(lines[..m]) <= Unsplit(lines)
  {
    if m < |lines| {
      var init := lines[..|lines| - 1];
      UnsplitPrefix(init, m);
      assert init[..m] == lines[..m];
      assert Unsplit(lines) == Unsplit(init) + (lines[|lines| - 1] + [NEWLINE]);
    } else {
      assert lines[..m] == lines;
    }
  }

  lemma TwoPollsAppendOnly(c: Config, content: Bytes, m: nat)
    requires m <= |LinesOf(content)|
    ensures
      var turns := TwoPolls(content, m);
      && AppendOnly(turns) && AllSaved(turns) && Seen(turns) == content
      && Prior(turns) == [Whole(Unsplit(LinesOf(content)[..m]))]
      && Prior(Prior(turns)) == []
      && LinesOf(Seen(Prior(turns))) == LinesOf(content)[..m]
  {
    var turns := TwoPolls(content, m);
    var head := Unsplit(LinesOf(content)[..m]);
    SplitIsExact(content);
    UnsplitPrefix(LinesOf(content), m);
    SplitOfUnsplit(LinesOf(content)[..m]);
    assert head <= content;
    assert turns[..1] == [Whole(head)] && turns[..1][..0] == [];
    assert AppendOnly([]);
    assert AppendOnly(turns[..1]);
  }

  lemma FirstPollAccepts(c: Config, content: Bytes)
    ensures AppendOnly([Whole(content)]) && Accepted(c, [Whole(content)]) == SamplesOf(c, content)
  {
    hide MetricOf, Qps, RowIs, Refresh, FloorTo;
    var turns := [Whole(content)];
    assert turns[..0] == [];
    assert AppendOnly([]) && AppendOnly(turns);
    assert [] + content == content && content[0..] == content;
    var samples := SamplesOf(c, content);
    assert NewLines(START, Whole(content).file) == LinesOf(content);
    SamplesArePositive(c, None, LinesOf(content));
    forall s | s in samples
      ensures 0 <= c.Key(s.timestampMs)
    {
      FloorToRange(s.timestampMs, c.Window());
    }
    AllKept(c, 0, samples);
    assert Accepted(c, []) + samples == samples;
  }

  /** The first poll of a file accepts every sample, and its watermark reaches the newest
      window less one. */
  lemma FirstPoll(c: Config, content: Bytes)
    requires SamplesOf(c, content) != []
    ensures
      var t := After(c, [Whole(content)]).0;
      forall s | s in SamplesOf(c, content) :: c.Key(s.timestampMs) - c.Window() <= t.finalized
  {
    hide MetricOf, Qps, RowIs, Accepted, SamplesOf, Poll, Upsert;
    var turns := [Whole(content)];
    var samples := SamplesOf(c, content);
    FirstPollAccepts(c, content);
    RunSettles(c, turns);
    SampleInBucket(c, samples, samples[0]);
    assert Prior(turns) == [] && After(c, []) == (START, map[]);
    assert c.Key(samples[0].timestampMs) in After(c, turns).1;
    AckTrims(c, turns);
    forall s | s in samples
      ensures c.Key(s.timestampMs) <= After(c, turns).0.latest
    {
      SampleInBucket(c, samples, s);
    }
  }

  lemma SampleInBucket(c: Config, samples: seq<Sample>, s: Sample)
    requires s in samples
    ensures c.Key(s.timestampMs) in BucketsOf(c, samples)
  {
    SlotNonEmpty(c, samples, c.Key(s.timestampMs));
    BucketMeaning(c, samples, c.Key(s.timestampMs));
  }

  /** A sample more than one window older than an earlier one is lost when a saved poll
      falls between the two. */
  lemma LateSampleIsLost(c: Config, content: Bytes, i: nat, j: nat, m: nat)
    requires i < j < |SamplesOf(c, content)| && m <= |LinesOf(content)|
    requires
      var samples := SamplesOf(c, content);
      && c.Key(samples[j].timestampMs) < c.Key(samples[i].timestampMs) - c.Window()
      && SamplesIn(c, None, LinesOf(content)[..m]) == samples[..j]
    ensures ListSnapshots(After(c, TwoPolls(content, m)).1) != BatchMetrics(c, SamplesOf(c, content))
  {
    hide MetricOf, Qps, RowIs, BatchMetrics, ListSnapshots, Refresh, Poll;
    var samples := SamplesOf(c, content);
    var turns := TwoPolls(content, m);
    var late := c.Key(samples[j].timestampMs);
    TwoPollsAppendOnly(c, content, m);
    var head := Unsplit(LinesOf(content)[..m]);
    assert SamplesOf(c, head) == samples[..j];
    FirstPollAccepts(c, head);
    FirstPoll(c, head);
    var t := After(c, Prior(turns)).0;
    assert samples[..j][i] == samples[i];
    assert late < t.finalized;
    var rest := SamplesIn(c, t.header, NewLines(t, Latest(turns).file));
    SeenGrows(c, turns);
    assert samples == samples[..j] + rest;
    KeptSlot(c, t.finalized, rest, late);
    SlotConcat(c, samples[..j], Kept(c, t.finalized, rest), late);
    SlotConcat(c, samples[..j], rest, late);
    assert rest[0] == samples[j] && rest[0] in rest;
    SlotNonEmpty(c, rest, late);
    RunSettles(c, turns);
    TableIsBatchOfAccepted(c, turns);
    BatchCounts(c, Accepted(c, turns), late);
    BatchCounts(c, samples, late);
  }

  /** The polling reader agrees with the one-pass parser for every division of the file into
      saved polls exactly when no sample of the file is late. */
  lemma DivisionIndependentIffTimely(c: Config, content: Bytes)
    ensures
      Timely(c, SamplesOf(c, content)) <==>
      forall turns | AppendOnly(turns) && AllSaved(turns) && Seen(turns) == content ::
        ListSnapshots(After(c, turns).1) == BatchMetrics(c, SamplesOf(c, content))
  {
    hide ListSnapshots, BatchMetrics, After;
    var samples := SamplesOf(c, content);
    if Timely(c, samples) {
      forall turns | AppendOnly(turns) && AllSaved(turns) && Seen(turns) == content
        ensures ListSnapshots(After(c, turns).1) == BatchMetrics(c, samples)
      {
        RunSettles(c, turns);
        TimelyRefinesBatch(c, turns);
      }
    } else {
      var i, j :| 0 <= i < j < |samples| &&
        c.Key(samples[j].timestampMs) < c.Key(samples[i].timestampMs) - c.Window();
      var m := LineOfSample(c, None, LinesOf(content), j);
      LateSampleIsLost(c, content, i, j, m);
      TwoPollsAppendOnly(c, content, m);
    }
  }

  // ----- buckets that are gone stay gone ------------------------------------------------------

  ghost predicate Popped(t: Tracker, key: int) { key !in t.buckets && key < t.finalized }

  lemma OneMoreTurn(c: Config, turns: seq<Turn>, key: int)
    requires turns != [] && AppendOnly(turns) && Popped(After(c, Prior(turns)).0, key)
    ensures Popped(After(c, turns).0, key)
  {
    var (t, table) := After(c, Prior(turns));
    ConsumedExactlyOnce(c, Prior(turns));
    TurnKeepsPopped(c, t, table, Latest(turns), key);
  }

  /** A window that left memory is behind the watermark, and no later turn brings it back. */
  lemma {:induction false} PoppedStaysPopped(c: Config, turns: seq<Turn>, more: seq<Turn>, key: int)
    requires AppendOnly(turns + more) && AppendOnly(turns)
    requires key in BucketsOf(c, Accepted(c, turns)) && key !in After(c, turns).0.buckets
    ensures Popped(After(c, turns + more).0, key)
  {
    hide After, Accepted, BucketsOf, Qps, RowIs;
    if more == [] {
      assert turns + more == turns;
      RunSettles(c, turns);
    } else {
      assert Prior(turns + more) == turns + more[..|more| - 1];
      PoppedStaysPopped(c, turns, more[..|more| - 1], key);
      OneMoreTurn(c, turns + more, key);
    }
  }

  lemma {:induction false} FeedKeepsPopped(c: Config, t: Tracker, lines: seq<Bytes>, key: int)
    requires key !in t.buckets && key < t.finalized
    ensures key !in FeedLines(c, t, lines).buckets
  {
    if lines != [] {
      FeedKeepsPopped(c, t, lines[..|lines| - 1], key);
      FeedKeeps(c, t, lines[..|lines| - 1]);
    }
  }

  lemma TurnKeepsPopped(c: Config, t: Tracker, table: Table, turn: Turn, key: int)
    requires t.Valid() && Popped(t, key)
    requires turn.file.Present? && t.identity.Some? ==> t.identity.value == turn.file.identity
    requires turn.file.Present? ==> t.offset <= turn.file.size
    ensures Popped(Refresh(c, t, table, turn.file, turn.saves).0, key)
  {
    var file := turn.file;
    if file.Present? && file.content.Some? {
      var o := Opened(t, file.identity, file.size);
      var split := SplitLines(o.pending + From(file.content.value, o.offset));
      var start := o.(offset := Max(o.offset, |file.content.value|), pending := split.rest);
      FeedKeepsPopped(c, start, split.lines, key);
      FeedKeeps(c, start, split.lines);
    }
  }

  // ----- the final one-pass run -----------------------------------------------------------------

  lemma {:induction false} KeptMembers(c: Config, finalized: int, samples: seq<Sample>)
    ensures forall s | s in Kept(c, finalized, samples) :: s in samples
  {
    if samples != [] {
      KeptMembers(c, finalized, samples[..|samples| - 1]);
    }
  }

  lemma {:induction false} AcceptedAreSeen(c: Config, turns: seq<Turn>)
    requires AppendOnly(turns)
    ensures forall s | s in Accepted(c, turns) :: s in SamplesOf(c, Seen(turns))
  {
    if turns != [] {
      AcceptedAreSeen(c, Prior(turns));
      SeenGrows(c, turns);
      var t := After(c, Prior(turns)).0;
      KeptMembers(c, t.finalized, SamplesIn(c, t.header, NewLines(t, Latest(turns).file)));
    }
  }

  lemma BucketsGrow(c: Config, some: seq<Sample>, all: seq<Sample>, key: int)
    requires (forall s | s in some :: s in all) && key in BucketsOf(c, some)
    ensures key in BucketsOf(c, all)
  {
    BucketMeaning(c, some, key);
    SlotNonEmpty(c, some, key);
    SlotNonEmpty(c, all, key);
    BucketMeaning(c, all, key);
  }

  lemma TableWithinAccepted(c: Config, turns: seq<Turn>)
    requires AppendOnly(turns)
    ensures After(c, turns).1.Keys <= BucketsOf(c, Accepted(c, turns)).Keys
  {
    RunSettles(c, turns);
    hide InMemory, PeakOf, RowIs, BucketsOf, Accepted, After, Qps;
  }

  /** Writing a one-pass result over whatever the polls left in the table makes the listed
      snapshots that result, as long as it saw at least what the polls accepted: late samples
      are repaired, later ones are added. */
  lemma FinalBatchRepairs(c: Config, turns: seq<Turn>, samples: seq<Sample>)
    requires AppendOnly(turns) && forall s | s in Accepted(c, turns) :: s in samples
    ensures ListSnapshots(Upsert(After(c, turns).1, BatchMetrics(c, samples))) == BatchMetrics(c, samples)
  {
    hide MetricOf, Qps, After, Accepted, ListSnapshots, Upsert, Summarises, BucketsOf, RowsFor, MaxQps;
    var table := After(c, turns).1;
    var b, rows := BucketsOf(c, samples), BatchMetrics(c, samples);
    TableWithinAccepted(c, turns);
    BucketsCounted(c, samples);
    MetricsFromDirty(c, b, b.Keys, 0.0);
    Upserted(table, rows);
    forall k | k in table
      ensures k in b
    {
      BucketsGrow(c, Accepted(c, turns), samples, k);
    }
    TableListsAs(c, Upsert(table, rows), samples);
  }
}
