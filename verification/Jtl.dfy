/** A JMeter result file (JTL) as bytes, as lines and as samples.

    How one line is split into CSV fields, how Python reads an integer and what it strips
    as white space are parameters, collected in `Decoder`. */
module Jtl {
  import opened ByteStrings
  import opened Numbers
  import opened Options

  type Pos = x: int | x > 0 witness 1

  // ----- bytes into lines ----------------------------------------------------

  /** `payload.split(b"\n")`: the terminated lines, and what follows the last newline. */
  datatype Split = Split(lines: seq<Bytes>, rest: Bytes)

  /** One byte more. */
  function Step(s: Split, b: Byte): Split {
    if b == NEWLINE then Split(s.lines + [s.rest], []) else Split(s.lines, s.rest + [b])
  }

  function SplitLines(data: Bytes): Split {
    if data == [] then Split([], [])
    else
      Step(SplitLines(data[..|data| - 1]), data[|data| - 1])
  }

  function Unsplit(lines: seq<Bytes>): Bytes {
    if lines == [] then [] else Unsplit(lines[..|lines| - 1]) + lines[|lines| - 1] + [NEWLINE]
  }

  /** Splitting loses no byte and cuts at the newlines and nowhere else. */
  lemma SplitIsExact(data: Bytes)
    ensures Unsplit(SplitLines(data).lines) + SplitLines(data).rest == data
    ensures NEWLINE !in SplitLines(data).rest
    ensures forall line | line in SplitLines(data).lines :: NEWLINE !in line
  {
    hide SplitLines, Unsplit;
    SplitJoins(data);
    SplitCuts(data);
  }

  lemma {:induction false} SplitJoins(data: Bytes)
    ensures Unsplit(SplitLines(data).lines) + SplitLines(data).rest == data
  {
    hide Unsplit;
    if data == [] {
      UnsplitNone(SplitLines(data).lines);
    } else {
      var init, b := data[..|data| - 1], data[|data| - 1];
      SplitJoins(init);
      var s := SplitLines(init);
      assert data == init + [b];
      UnsplitOne(s.lines, s.rest);
    }
  }

  lemma UnsplitNone(lines: seq<Bytes>)
    requires lines == []
    ensures Unsplit(lines) == []
  {}

  lemma UnsplitOne(lines: seq<Bytes>, line: Bytes)
    ensures Unsplit(lines + [line]) == Unsplit(lines) + line + [NEWLINE]
  {
    assert (lines + [line])[..|lines|] == lines;
  }

  lemma {:induction false} SplitCuts(data: Bytes)
    ensures NEWLINE !in SplitLines(data).rest
    ensures forall line | line in SplitLines(data).lines :: NEWLINE !in line
  {
    if data != [] {
      SplitCuts(data[..|data| - 1]);
    }
  }

  lemma {:induction false} SplitRest(rest: Bytes)
    requires NEWLINE !in rest
    ensures SplitLines(rest) == Split([], rest)
  {
    if rest != [] {
      SplitRest(rest[..|rest| - 1]);
    }
  }

  lemma SplitStep(data: Bytes, b: Byte)
    ensures SplitLines(data + [b]) == Step(SplitLines(data), b)
  {
    assert (data + [b])[..|data|] == data;
  }

  /** Reading a file in two pieces, with the unfinished line carried over, yields the lines
      of the whole file. */
  lemma {:induction false} SplitInPieces(a: Bytes, b: Bytes)
    ensures
      var s, t := SplitLines(a), SplitLines(SplitLines(a).rest + b);
      SplitLines(a + b) == Split(s.lines + t.lines, t.rest)
  {
    hide SplitLines, Unsplit;
    var s := SplitLines(a);
    if b == [] {
      SplitIsExact(a);
      SplitRest(s.rest);
      assert a + b == a && s.rest + b == s.rest;
    } else {
      var init, last := b[..|b| - 1], b[|b| - 1];
      SplitInPieces(a, init);
      assert a + b == (a + init) + [last] && s.rest + b == (s.rest + init) + [last];
      SplitStep(a + init, last);
      SplitStep(s.rest + init, last);
    }
  }

  lemma SplitOne(line: Bytes)
    requires NEWLINE !in line
    ensures SplitLines(line + [NEWLINE]) == Split([line], [])
  {
    SplitRest(line);
    assert (line + [NEWLINE])[..|line|] == line;
  }

  lemma SplitNothing(lines: seq<Bytes>)
    requires lines == []
    ensures SplitLines(Unsplit(lines)) == Split(lines, [])
  {
    hide SplitLines, Unsplit;
    UnsplitNone(lines);
    SplitRest(Unsplit(lines));
  }

  lemma {:induction false} SplitOfUnsplit(lines: seq<Bytes>)
    requires forall line | line in lines :: NEWLINE !in line
    ensures SplitLines(Unsplit(lines)) == Split(lines, [])
  {
    hide SplitLines, Unsplit;
    if lines == [] {
      SplitNothing(lines);
    } else {
      var init, last := lines[..|lines| - 1], lines[|lines| - 1];
      SplitOfUnsplit(init);
      SplitInPieces(Unsplit(init), last + [NEWLINE]);
      SplitOne(last);
      assert [] + (last + [NEWLINE]) == last + [NEWLINE];
      assert init + [last] == lines;
      UnsplitOne(init, last);
      assert Unsplit(lines) == Unsplit(init) + (last + [NEWLINE]);
    }
  }

  /** `raw_line.rstrip(b"\r")`. */
  function StripCr(line: Bytes): Bytes {
    if line != [] && line[|line| - 1] == CARRIAGE_RETURN then StripCr(line[..|line| - 1]) else line
  }

  // ----- lines into rows -----------------------------------------------------

  datatype Decoder = Decoder(
    fields: Bytes -> Option<seq<string>>,  // the CSV fields of one line; None is csv.Error
    toInt: string -> Option<int>,          // int(text); None is ValueError
    strip: string -> string)               // text.strip()

  type Row = map<string, string>

  /** `dict(zip(header, values))`: a repeated column keeps its last value. */
  function RowOf(header: seq<string>, values: seq<string>): Row
    requires |header| == |values|
  {
    if header == [] then map[]
    else RowOf(header[..|header| - 1], values[..|values| - 1])[header[|header| - 1] := values[|values| - 1]]
  }

  /** `row.get(column) or ""`. */
  function Get(row: Row, column: string): string {
    if column in row then row[column] else ""
  }

  /** `text.lower() == "true"`. */
  predicate IsTrue(text: string) {
    && |text| == 4
    && text[0] in "tT" && text[1] in "rR" && text[2] in "uU" && text[3] in "eE"
  }

  // ----- rows into samples ---------------------------------------------------

  /** The integers of run_meta.json that the parsers read; a missing file or an empty
      object is `None`. */
  datatype RunMeta = RunMeta(slaveCount: int, perSlaveThreads: int, totalThreads: int)

  /** `_normalize_threads`. */
  function NormalizeThreads(raw: int, meta: Option<RunMeta>): int {
    if meta.None? || meta.value.slaveCount <= 1 then raw
    else
      var m := meta.value;
      var threads := if m.perSlaveThreads <= 0 || raw <= m.perSlaveThreads then raw * m.slaveCount else raw;
      if m.totalThreads > 0 then Min(threads, m.totalThreads) else threads
  }

  datatype Sample = Sample(timestampMs: int, elapsed: int, success: bool, threads: int, threadName: string)

  datatype Config = Config(decoder: Decoder, windowSec: Pos, meta: Option<RunMeta>) {
    function Window(): Pos { windowSec * 1000 }

    /** The start of the window an instant falls in. */
    function Key(timestampMs: int): int { FloorTo(timestampMs, Window()) }
  }

  /** The sample a row stands for, or None where the row is skipped. */
  function ParseRow(c: Config, row: Row): Option<Sample> {
    var ts, elapsed, success := Get(row, "timeStamp"), Get(row, "elapsed"), Get(row, "success");
    if ts == "" || elapsed == "" || success == "" then None
    else
      var t, e := c.decoder.toInt(ts), c.decoder.toInt(elapsed);
      var threadsText :=
        if Get(row, "allThreads") != "" then Get(row, "allThreads")
        else if Get(row, "grpThreads") != "" then Get(row, "grpThreads")
        else "0";
      var n := c.decoder.toInt(threadsText);
      if t.None? || e.None? || n.None? || t.value <= 0 then None
      else Some(Sample(t.value, e.value, IsTrue(success), NormalizeThreads(n.value, c.meta),
                       c.decoder.strip(Get(row, "threadName"))))
  }

  /** What one line means to the incremental reader, given the header read so far. */
  datatype Meaning = Nothing | Header(columns: seq<string>) | Data(sample: Sample)

  function MeaningOf(c: Config, header: Option<seq<string>>, raw: Bytes): Meaning {
    var line := StripCr(raw);
    if line == [] then Nothing
    else
      match c.decoder.fields(line)
      case None => Nothing
      case Some(values) =>
        if header.None? then Header(values)
        else if |values| != |header.value| then Nothing
        else
          match ParseRow(c, RowOf(header.value, values))
          case None => Nothing
          case Some(s) => Data(s)
  }

  function HeaderAfter(c: Config, header: Option<seq<string>>, lines: seq<Bytes>): Option<seq<string>> {
    if lines == [] then header
    else
      var h := HeaderAfter(c, header, lines[..|lines| - 1]);
      var m := MeaningOf(c, h, lines[|lines| - 1]);
      if m.Header? then Some(m.columns) else h
  }

  /** The samples of a run of lines, in file order. */
  function SamplesIn(c: Config, header: Option<seq<string>>, lines: seq<Bytes>): seq<Sample> {
    if lines == [] then []
    else
      var init := lines[..|lines| - 1];
      var m := MeaningOf(c, HeaderAfter(c, header, init), lines[|lines| - 1]);
      SamplesIn(c, header, init) + (if m.Data? then [m.sample] else [])
  }

  lemma SamplesStep(c: Config, header: Option<seq<string>>, lines: seq<Bytes>, line: Bytes)
    ensures
      var m := MeaningOf(c, HeaderAfter(c, header, lines), line);
      && HeaderAfter(c, header, lines + [line]) == (if m.Header? then Some(m.columns) else HeaderAfter(c, header, lines))
      && SamplesIn(c, header, lines + [line]) == SamplesIn(c, header, lines) + (if m.Data? then [m.sample] else [])
  {
    hide MeaningOf;
    assert (lines + [line])[..|lines|] == lines;
  }

  lemma {:induction false} SamplesConcat(c: Config, header: Option<seq<string>>, a: seq<Bytes>, b: seq<Bytes>)
    ensures HeaderAfter(c, header, a + b) == HeaderAfter(c, HeaderAfter(c, header, a), b)
    ensures SamplesIn(c, header, a + b) == SamplesIn(c, header, a) + SamplesIn(c, HeaderAfter(c, header, a), b)
  {
    if b == [] {
      assert a + b == a;
    } else {
      hide MeaningOf, HeaderAfter, SamplesIn;
      var init, line := b[..|b| - 1], b[|b| - 1];
      SamplesConcat(c, header, a, init);
      assert a + b == (a + init) + [line] && b == init + [line];
      SamplesStep(c, header, a + init, line);
      SamplesStep(c, HeaderAfter(c, header, a), init, line);
    }
  }

  lemma {:induction false} SamplesArePositive(c: Config, header: Option<seq<string>>, lines: seq<Bytes>)
    ensures forall s | s in SamplesIn(c, header, lines) :: s.timestampMs > 0
  {
    if lines != [] {
      SamplesArePositive(c, header, lines[..|lines| - 1]);
    }
  }

  /** Every sample comes from one line: the line can be cut out at a line boundary. */
  lemma {:induction false} LineOfSample(c: Config, header: Option<seq<string>>, lines: seq<Bytes>, j: nat)
    returns (m: nat)
    requires j < |SamplesIn(c, header, lines)|
    ensures m < |lines|
    ensures SamplesIn(c, header, lines[..m]) == SamplesIn(c, header, lines)[..j]
  {
    var init := lines[..|lines| - 1];
    if j < |SamplesIn(c, header, init)| {
      m := LineOfSample(c, header, init, j);
      assert init[..m] == lines[..m];
    } else {
      m := |lines| - 1;
    }
  }

  // ----- what is read ----------------------------------------------------------

  function Lowered(text: string): string {
    seq(|text|, i requires 0 <= i < |text| => if 'A' <= text[i] <= 'Z' then text[i] - 'A' + 'a' else text[i])
  }

  /** A sample succeeded exactly when its text, in lower case, is "true". */
  lemma IsTrueExactly(text: string)
    ensures IsTrue(text) <==> Lowered(text) == "true"
  {
    var low := Lowered(text);
    if low == "true" {
      assert |low| == 4 && low[0] == 't' && low[1] == 'r' && low[2] == 'u' && low[3] == 'e';
    }
    if IsTrue(text) {
      assert low[0] == 't' && low[1] == 'r' && low[2] == 'u' && low[3] == 'e';
    }
  }

  /** Only carriage returns go, and all of them at the end. */
  lemma {:induction false} StripCrCuts(line: Bytes) returns (n: nat)
    ensures n <= |line| && StripCr(line) == line[..n]
    ensures forall i | n <= i < |line| :: line[i] == CARRIAGE_RETURN
    ensures n > 0 ==> line[n - 1] != CARRIAGE_RETURN
  {
    n := |line|;
    if line != [] && line[|line| - 1] == CARRIAGE_RETURN {
      n := StripCrCuts(line[..|line| - 1]);
    }
  }

  /** Every column of the header has a value, and a repeated one its last. */
  lemma {:induction false} RowOfColumns(header: seq<string>, values: seq<string>)
    requires |header| == |values|
    ensures forall column :: column in RowOf(header, values) <==> column in header
    ensures forall i | 0 <= i < |header| && (forall j | i < j < |header| :: header[j] != header[i]) ::
      header[i] in RowOf(header, values) && RowOf(header, values)[header[i]] == values[i]
  {
    if header != [] {
      var n := |header| - 1;
      RowOfColumns(header[..n], values[..n]);
      assert header == header[..n] + [header[n]];
      forall i | 0 <= i < |header| && (forall j | i < j < |header| :: header[j] != header[i])
        ensures header[i] in RowOf(header, values) && RowOf(header, values)[header[i]] == values[i]
      {
        if i < n {
          assert header[..n][i] == header[i] && header[n] != header[i];
          assert forall j | i < j < n :: header[..n][j] != header[..n][i];
        }
      }
    }
  }

  /** A run over several slaves multiplies a thread count that one slave can have reached, and never
      shows more threads than the run has. */
  lemma ThreadsNormalized(raw: int, meta: Option<RunMeta>)
    ensures meta.None? || meta.value.slaveCount <= 1 ==> NormalizeThreads(raw, meta) == raw
    ensures meta.Some? && meta.value.slaveCount > 1 ==>
      (var m, shown := meta.value, NormalizeThreads(raw, meta);
       var all := if 0 < m.perSlaveThreads < raw then raw else raw * m.slaveCount;
       && (m.totalThreads <= 0 ==> shown == all)
       && (m.totalThreads > 0 ==> shown <= m.totalThreads && shown <= all && (shown == all || shown == m.totalThreads)))
  {}

  /** The text under a column that is there and not empty. */
  ghost predicate Holds(row: Row, column: string, text: string) { column in row && row[column] == text && text != "" }

  /** A row is a sample exactly when time, elapsed time and outcome are there, the numbers read, and
      the time is positive; the thread count is that of all threads, else of the group, else zero. */
  lemma RowReadsAs(c: Config, row: Row, t: string, e: string, ok: string, threads: string)
    requires Holds(row, "timeStamp", t) && Holds(row, "elapsed", e) && Holds(row, "success", ok)
    requires
      || Holds(row, "allThreads", threads)
      || (Get(row, "allThreads") == "" && Holds(row, "grpThreads", threads))
      || (Get(row, "allThreads") == "" && Get(row, "grpThreads") == "" && threads == "0")
    ensures
      var time, elapsed, n := c.decoder.toInt(t), c.decoder.toInt(e), c.decoder.toInt(threads);
      if time.Some? && elapsed.Some? && n.Some? && time.value > 0 then
        && ParseRow(c, row).Some?
        && var s := ParseRow(c, row).value;
           && s.timestampMs == time.value && s.elapsed == elapsed.value && s.success == (Lowered(ok) == "true")
           && s.threads == NormalizeThreads(n.value, c.meta)
           && s.threadName == c.decoder.strip(if "threadName" in row then row["threadName"] else "")
      else ParseRow(c, row).None?
  {
    IsTrueExactly(ok);
  }

  lemma RowLacksSample(c: Config, row: Row, column: string)
    requires column in {"timeStamp", "elapsed", "success"} && (column !in row || row[column] == "")
    ensures ParseRow(c, row).None?
  {}
}
