/** The one-pass parser over the rows `csv.DictReader` yields: exactly where it takes other
    samples than the polling reader, and what its run at the end makes of the polled table. */
module FinalParse {
  import opened ByteStrings
  import opened Numbers
  import opened Options
  import opened Jtl
  import opened MetricBuckets
  import opened IncrementalMetrics
  import opened MetricRefinement
  import opened MetricEquivalence

  // ----- the rows ---------------------------------------------------------------------------------

  predicate Blank(line: Bytes) { StripCr(line) == [] }

  /** Every line is a CSV record of its own, with no carriage return except at its end. */
  ghost predicate ReadAlone(c: Config, lines: seq<Bytes>) {
    forall line | line in lines ::
      && CARRIAGE_RETURN !in line[..if line == [] then 0 else |line| - 1]
      && (Blank(line) || c.decoder.fields(StripCr(line)).Some?)
  }

  function FieldsOf(c: Config, line: Bytes): seq<string>
    requires Blank(line) || c.decoder.fields(StripCr(line)).Some?
  {
    if Blank(line) then [] else c.decoder.fields(StripCr(line)).value
  }

  /** The first line's fields, none when it is blank. */
  ghost function ColumnsOf(c: Config, lines: seq<Bytes>): seq<string>
    requires lines != [] && ReadAlone(c, lines)
  {
    FieldsOf(c, lines[0])
  }

  /** One row: fields beyond the header go under no column, columns beyond the fields are None
      and count as absent, even where the name occurred before. */
  function DictRow(columns: seq<string>, values: seq<string>): Row {
    var n := Min(|columns|, |values|);
    RowOf(columns[..n], values[..n]) - (set column | column in columns[n..])
  }

  /** A column's value is the one at its last place in the header, if the row reaches that far. */
  lemma DictRowTells(columns: seq<string>, values: seq<string>, i: nat)
    requires i < |columns| && forall j | i < j < |columns| :: columns[j] != columns[i]
    ensures columns[i] in DictRow(columns, values) <==> i < |values|
    ensures i < |values| ==> DictRow(columns, values)[columns[i]] == values[i]
  {
    var n := Min(|columns|, |values|);
    RowOfColumns(columns[..n], values[..n]);
    if i < n {
      assert columns[..n][i] == columns[i];
      assert columns[i] !in columns[n..];
    } else {
      assert columns[n..][i - n] == columns[i];
    }
  }

  /** All rows after the header, blank lines skipped. */
  ghost function DictRows(c: Config, lines: seq<Bytes>): seq<Row>
    requires ReadAlone(c, lines)
  {
    if |lines| <= 1 then []
    else
      var values := FieldsOf(c, lines[|lines| - 1]);
      DictRows(c, lines[..|lines| - 1]) + (if values == [] then [] else [DictRow(ColumnsOf(c, lines), values)])
  }

  /** The samples the one-pass parser takes. */
  ghost function OnePass(c: Config, lines: seq<Bytes>): seq<Sample>
    requires ReadAlone(c, lines)
  {
    SamplesOfRows(c, DictRows(c, lines))
  }

  /** The samples of the rows whose number of fields is not the header's. */
  ghost function Ragged(c: Config, lines: seq<Bytes>): seq<Sample>
    requires ReadAlone(c, lines)
  {
    if |lines| <= 1 then []
    else
      var columns, values := ColumnsOf(c, lines), FieldsOf(c, lines[|lines| - 1]);
      Ragged(c, lines[..|lines| - 1]) + (if |values| == |columns| then [] else SampleOf(c, DictRow(columns, values)))
  }

  function SampleOf(c: Config, row: Row): seq<Sample> {
    var s := ParseRow(c, row);
    if s.Some? then [s.value] else []
  }

  lemma PrefixReadsAlone(c: Config, lines: seq<Bytes>)
    requires ReadAlone(c, lines) && |lines| > 1
    ensures ReadAlone(c, lines[..|lines| - 1]) && ColumnsOf(c, lines[..|lines| - 1]) == ColumnsOf(c, lines)
  {}

  lemma FullRow(columns: seq<string>, values: seq<string>)
    requires |values| == |columns|
    ensures DictRow(columns, values) == RowOf(columns, values)
  {
    assert columns[..|columns|] == columns && values[..|values|] == values;
  }

  // ----- one line more ------------------------------------------------------------------------------

  /** What the last line adds to the one-pass samples. */
  ghost function Added(c: Config, lines: seq<Bytes>): seq<Sample>
    requires |lines| > 1 && ReadAlone(c, lines)
  {
    var values := FieldsOf(c, lines[|lines| - 1]);
    if values == [] then [] else SampleOf(c, DictRow(ColumnsOf(c, lines), values))
  }

  lemma OnePassStep(c: Config, lines: seq<Bytes>)
    requires ReadAlone(c, lines) && |lines| > 1
    ensures ReadAlone(c, lines[..|lines| - 1])
    ensures OnePass(c, lines) == OnePass(c, lines[..|lines| - 1]) + Added(c, lines)
  {
    hide ParseRow, DictRow, FieldsOf;
    PrefixReadsAlone(c, lines);
    var before := DictRows(c, lines[..|lines| - 1]);
    var values := FieldsOf(c, lines[|lines| - 1]);
    if values == [] {
      assert before + [] == before;
      assert OnePass(c, lines[..|lines| - 1]) + [] == OnePass(c, lines[..|lines| - 1]);
    } else {
      assert (before + [DictRow(ColumnsOf(c, lines), values)])[..|before|] == before;
    }
  }

  lemma NoFieldsNoSample(c: Config, columns: seq<string>)
    ensures SampleOf(c, DictRow(columns, [])) == [] && SampleOf(c, DictRow([], columns)) == []
  {
    assert columns[..0] == [];
  }

  /** A line's sample is taken by both readers, or by the one-pass parser alone, being of another
      length than the header. */
  lemma LineMeans(c: Config, columns: seq<string>, line: Bytes)
    requires Blank(line) || c.decoder.fields(StripCr(line)).Some?
    ensures
      var values, m := FieldsOf(c, line), MeaningOf(c, Some(columns), line);
      && !m.Header?
      && (if |values| == |columns| then [] else SampleOf(c, DictRow(columns, values))) + (if m.Data? then [m.sample] else []) ==
           if values == [] then [] else SampleOf(c, DictRow(columns, values))
  {
    hide ParseRow, DictRow;
    var values := FieldsOf(c, line);
    NoFieldsNoSample(c, columns);
    if |values| == |columns| {
      FullRow(columns, values);
    }
  }

  ghost predicate HasHeader(lines: seq<Bytes>) { lines == [] || !Blank(lines[0]) }

  lemma {:induction false} HeaderRead(c: Config, lines: seq<Bytes>)
    requires ReadAlone(c, lines) && HasHeader(lines)
    ensures HeaderAfter(c, None, lines) == if lines == [] then None else Some(ColumnsOf(c, lines))
    ensures |lines| <= 1 ==> SamplesIn(c, None, lines) == []
  {
    hide ParseRow, StripCr, RowOf;
    if |lines| > 1 {
      var init, line := lines[..|lines| - 1], lines[|lines| - 1];
      PrefixReadsAlone(c, lines);
      HeaderRead(c, init);
      LineMeans(c, ColumnsOf(c, lines), line);
    } else if |lines| == 1 {
      assert lines[..0] == [];
    }
  }

  // ----- where the readers part -----------------------------------------------------------------------

  /** The one-pass parser takes the polling reader's samples and, besides, those of the rows of
      another length, and no more. */
  lemma {:induction false} OnePassTakes(c: Config, lines: seq<Bytes>, key: int)
    requires ReadAlone(c, lines) && HasHeader(lines)
    ensures |Slot(c, OnePass(c, lines), key)| == |Slot(c, SamplesIn(c, None, lines), key)| + |Slot(c, Ragged(c, lines), key)|
    ensures forall s | s in SamplesIn(c, None, lines) :: s in OnePass(c, lines)
    ensures Ragged(c, lines) == [] ==> OnePass(c, lines) == SamplesIn(c, None, lines)
  {
    hide ParseRow, DictRow, FieldsOf, DictRows, SamplesOfRows, MeaningOf, Slot;
    HeaderRead(c, lines);
    if |lines| > 1 {
      var init, line := lines[..|lines| - 1], lines[|lines| - 1];
      PrefixReadsAlone(c, lines);
      OnePassStep(c, lines);
      OnePassTakes(c, init, key);
      HeaderRead(c, init);
      LineMeans(c, ColumnsOf(c, lines), line);
      var m := MeaningOf(c, Some(ColumnsOf(c, lines)), line);
      var kept := if m.Data? then [m.sample] else [];
      var ragged := RaggedLine(c, lines);
      assert Added(c, lines) == ragged + kept;
      SlotConcat(c, OnePass(c, init), ragged + kept, key);
      SlotConcat(c, ragged, kept, key);
      SlotConcat(c, SamplesIn(c, None, init), kept, key);
      SlotConcat(c, Ragged(c, init), ragged, key);
    } else {
      NothingRead(c, lines, key);
    }
  }

  ghost function RaggedLine(c: Config, lines: seq<Bytes>): seq<Sample>
    requires |lines| > 1 && ReadAlone(c, lines)
  {
    var columns, values := ColumnsOf(c, lines), FieldsOf(c, lines[|lines| - 1]);
    if |values| == |columns| then [] else SampleOf(c, DictRow(columns, values))
  }

  lemma NothingRead(c: Config, lines: seq<Bytes>, key: int)
    requires |lines| <= 1 && ReadAlone(c, lines)
    ensures OnePass(c, lines) == [] == Ragged(c, lines) && Slot(c, [], key) == []
  {}

  /** The two readers make the same metrics of a file if and only if no row of another length than
      the header reads as a sample. */
  lemma ReadersAgreeIffEven(c: Config, lines: seq<Bytes>)
    requires ReadAlone(c, lines) && HasHeader(lines)
    ensures BatchMetrics(c, OnePass(c, lines)) == BatchMetrics(c, SamplesIn(c, None, lines)) <==> Ragged(c, lines) == []
    ensures OnePass(c, lines) == SamplesIn(c, None, lines) <==> Ragged(c, lines) == []
  {
    hide ParseRow, DictRow, FieldsOf, DictRows, SamplesOfRows, MeaningOf, BatchMetrics, Slot, OnePass, Ragged;
    var all, some, more := OnePass(c, lines), SamplesIn(c, None, lines), Ragged(c, lines);
    OnePassTakes(c, lines, 0);
    if more != [] {
      var key := c.Key(more[0].timestampMs);
      assert more[0] in more;
      SlotNonEmpty(c, more, key);
      OnePassTakes(c, lines, key);
      BatchCounts(c, all, key);
      BatchCounts(c, some, key);
    }
  }

  /** Below a blank first line the one-pass parser takes nothing, while the polling reader looks
      for its header further down. */
  lemma {:induction false} BlankFirstLineReadsNothing(c: Config, lines: seq<Bytes>)
    requires ReadAlone(c, lines) && !HasHeader(lines)
    ensures OnePass(c, lines) == []
  {
    hide ParseRow, DictRow, DictRows, SamplesOfRows;
    if |lines| > 1 {
      PrefixReadsAlone(c, lines);
      BlankFirstLineReadsNothing(c, lines[..|lines| - 1]);
      OnePassStep(c, lines);
      NoFieldsNoSample(c, FieldsOf(c, lines[|lines| - 1]));
    } else {
      NothingRead(c, lines, 0);
    }
  }

  /** End to end on a timely append-only file: what the polls stored is what the one-pass parser
      makes of the finished lines if and only if no row of another length reads as a sample. */
  lemma PollsEqualOnePassIffEven(c: Config, turns: seq<Turn>)
    requires AppendOnly(turns) && After(c, turns).0.dirty == {} && Timely(c, SamplesOf(c, Seen(turns)))
    requires ReadAlone(c, LinesOf(Seen(turns))) && HasHeader(LinesOf(Seen(turns)))
    ensures ListSnapshots(After(c, turns).1) == BatchMetrics(c, OnePass(c, LinesOf(Seen(turns)))) <==>
      Ragged(c, LinesOf(Seen(turns))) == []
  {
    hide OnePass, Ragged, BatchMetrics, After, ListSnapshots, ReadAlone, HasHeader, Timely;
    ReadersAgreeIffEven(c, LinesOf(Seen(turns)));
    TimelyRefinesBatch(c, turns);
  }

  // ----- the run at the end ---------------------------------------------------------------------------

  /** What `csv.DictReader` meets: the finished lines and an unterminated last one. */
  function AllLines(content: Bytes): seq<Bytes> {
    LinesOf(content) + if SplitLines(content).rest == [] then [] else [SplitLines(content).rest]
  }

  lemma SeenSamples(c: Config, seen: Bytes, content: Bytes)
    requires seen <= content
    ensures forall s | s in SamplesOf(c, seen) :: s in SamplesIn(c, None, AllLines(content))
  {
    hide SamplesIn, HeaderAfter, SplitLines;
    var tail := content[|seen|..];
    assert content == seen + tail;
    SplitInPieces(seen, tail);
    var more := SplitLines(SplitLines(seen).rest + tail).lines;
    var last := if SplitLines(content).rest == [] then [] else [SplitLines(content).rest];
    assert AllLines(content) == LinesOf(seen) + (more + last);
    SamplesConcat(c, None, LinesOf(seen), more + last);
  }

  /** The parser's run over the finished file, unterminated last row included, makes the listed
      snapshots its own result whatever the polls left: samples lost for being late are back, rows
      of another length are in, and the peak is the result's. */
  lemma FinalParseRepairs(c: Config, turns: seq<Turn>, content: Bytes)
    requires AppendOnly(turns) && Seen(turns) <= content
    requires ReadAlone(c, AllLines(content)) && HasHeader(AllLines(content))
    ensures
      var metrics := BatchMetrics(c, OnePass(c, AllLines(content)));
      ListSnapshots(Upsert(After(c, turns).1, metrics)) == metrics
  {
    hide OnePass, Ragged, BatchMetrics, After, ListSnapshots, ReadAlone, HasHeader, Accepted, Upsert, SamplesIn, AllLines, Seen;
    AcceptedAreSeen(c, turns);
    SeenSamples(c, Seen(turns), content);
    OnePassTakes(c, AllLines(content), 0);
    FinalBatchRepairs(c, turns, OnePass(c, AllLines(content)));
  }
}
