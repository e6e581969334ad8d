/** Dealing the lines of a CSV file out to the slaves. */
module CsvSharding {
  import opened ByteStrings

  // ----- lines ---------------------------------------------------------------------------------------------------

  /** The length of the first line with its terminator: LF, CR or CR LF. */
  function LineEnd(data: Bytes): (n: nat)
    requires data != []
    ensures 0 < n <= |data|
  {
    if data[0] == NEWLINE then 1
    else if data[0] == CARRIAGE_RETURN then (if |data| > 1 && data[1] == NEWLINE then 2 else 1)
    else if |data| == 1 then 1
    else 1 + LineEnd(data[1..])
  }

  /** `splitlines(keepends=True)` of bytes. */
  function SplitKeep(data: Bytes): seq<Bytes> {
    if data == [] then [] else [data[..LineEnd(data)]] + SplitKeep(data[LineEnd(data)..])
  }

  /** `b"".join`. */
  function Join(lines: seq<Bytes>): Bytes { if lines == [] then [] else lines[0] + Join(lines[1..]) }

  /** Splitting loses nothing. */
  lemma {:induction false} JoinOfSplit(data: Bytes)
    ensures Join(SplitKeep(data)) == data
  {
    if data != [] {
      JoinOfSplit(data[LineEnd(data)..]);
    }
  }

  /** One line: nothing in it ends a line before its end. */
  predicate IsLine(l: Bytes) { l != [] && LineEnd(l) == |l| }

  predicate Terminated(l: Bytes) { l != [] && (l[|l| - 1] == NEWLINE || l[|l| - 1] == CARRIAGE_RETURN) }

  predicate EndsInCr(l: Bytes) { l != [] && l[|l| - 1] == CARRIAGE_RETURN }

  /** A CR at the end of one piece and an LF at the start of the next read as one terminator. */
  predicate Seam(l: Bytes, next: Bytes) { EndsInCr(l) && next != [] && next[0] == NEWLINE }

  /** Pieces that stay apart when joined. */
  predicate Clean(lines: seq<Bytes>) {
    && (forall i | 0 <= i < |lines| :: IsLine(lines[i]))
    && (forall i | 0 <= i < |lines| - 1 :: Terminated(lines[i]) && !Seam(lines[i], lines[i + 1]))
  }

  lemma {:induction false} LineEndOfPrefix(data: Bytes)
    requires data != []
    ensures IsLine(data[..LineEnd(data)])
    ensures LineEnd(data) < |data| ==>
      Terminated(data[..LineEnd(data)]) && !Seam(data[..LineEnd(data)], data[LineEnd(data)..])
  {
    if data[0] != NEWLINE && data[0] != CARRIAGE_RETURN && |data| > 1 {
      LineEndOfPrefix(data[1..]);
      var n := LineEnd(data);
      assert data[..n][1..] == data[1..][..n - 1] && data[n..] == data[1..][n - 1..];
    }
  }

  /** The lines of a file stay apart. */
  lemma {:induction false} SplitIsClean(data: Bytes)
    ensures Clean(SplitKeep(data))
  {
    if data != [] {
      var n := LineEnd(data);
      LineEndOfPrefix(data);
      SplitIsClean(data[n..]);
      var rest := SplitKeep(data[n..]);
      var lines := [data[..n]] + rest;
      if n < |data| {
        assert rest[0] == data[n..][..LineEnd(data[n..])];
      }
      forall i | 0 <= i < |lines| - 1
        ensures Terminated(lines[i]) && !Seam(lines[i], lines[i + 1])
      {
        if i > 0 {
          assert lines[i] == rest[i - 1] && lines[i + 1] == rest[i];
        }
      }
    }
  }

  /** Nothing before the end of the line reads as a terminator; CR LF is one. */
  predicate Unbroken(l: Bytes) {
    l != [] && forall i | 0 <= i < |l| - 1 ::
      l[i] != NEWLINE && (l[i] == CARRIAGE_RETURN ==> i == |l| - 2 && l[|l| - 1] == NEWLINE)
  }

  /** The line ends in LF, or in a CR that no LF follows. */
  predicate EndsBefore(l: Bytes, next: Bytes) {
    l != [] && next != [] &&
    (l[|l| - 1] == NEWLINE || (l[|l| - 1] == CARRIAGE_RETURN && next[0] != NEWLINE))
  }

  lemma {:induction false} LineEndTold(data: Bytes)
    requires data != []
    ensures
      var n := LineEnd(data);
      && Unbroken(data[..n])
      && (n < |data| ==> data[n - 1] == NEWLINE || (data[n - 1] == CARRIAGE_RETURN && data[n] != NEWLINE))
  {
    var n := LineEnd(data);
    if data[0] != NEWLINE && data[0] != CARRIAGE_RETURN && |data| > 1 {
      LineEndTold(data[1..]);
      var rest := data[1..][..n - 1];
      assert forall i | 0 < i < n :: data[..n][i] == rest[i - 1];
    }
  }

  /** The lines of a file: none holds a terminator but at its end, and every line but the last ends
      in LF, or in a CR that no LF follows. */
  lemma {:induction false} SplitTold(data: Bytes)
    ensures forall i | 0 <= i < |SplitKeep(data)| :: Unbroken(SplitKeep(data)[i])
    ensures forall i | 0 <= i < |SplitKeep(data)| - 1 :: EndsBefore(SplitKeep(data)[i], SplitKeep(data)[i + 1])
  {
    if data != [] {
      hide Unbroken;
      var n := LineEnd(data);
      LineEndTold(data);
      SplitTold(data[n..]);
      var lines, rest := SplitKeep(data), SplitKeep(data[n..]);
      assert lines[0] == data[..n] && forall i | 0 < i < |lines| :: lines[i] == rest[i - 1];
      forall i | 0 <= i < |lines| - 1
        ensures EndsBefore(lines[i], lines[i + 1])
      {
        if i == 0 {
          assert rest[0] == data[n..][..LineEnd(data[n..])];
          assert rest[0][0] == data[n] && lines[0][n - 1] == data[n - 1];
        } else {
          assert lines[i] == rest[i - 1] && lines[i + 1] == rest[i];
        }
      }
    }
  }

  /** A line followed by something it has no seam with ends where it did. */
  lemma {:induction false} LineEndExtended(l: Bytes, more: Bytes)
    requires IsLine(l) && (more == [] || (Terminated(l) && !Seam(l, more)))
    ensures LineEnd(l + more) == |l|
  {
    if more == [] {
      assert l + more == l;
    } else if l[0] == NEWLINE || l[0] == CARRIAGE_RETURN {
    } else {
      assert (l + more)[1..] == l[1..] + more;
      LineEndExtended(l[1..], more);
    }
  }

  lemma FirstOfJoin(lines: seq<Bytes>)
    requires lines != [] && lines[0] != []
    ensures Join(lines) != [] && Join(lines)[0] == lines[0][0]
  {}

  /** Splitting what was joined gives the pieces back exactly when they stay apart. */
  lemma {:induction false} SplitOfJoin(lines: seq<Bytes>)
    ensures SplitKeep(Join(lines)) == lines <==> Clean(lines)
  {
    if SplitKeep(Join(lines)) == lines {
      SplitIsClean(Join(lines));
    }
    if Clean(lines) {
      CleanSplits(lines);
    }
  }

  lemma {:induction false} CleanSplits(lines: seq<Bytes>)
    requires Clean(lines)
    ensures SplitKeep(Join(lines)) == lines
  {
    if lines != [] {
      var l, more := lines[0], Join(lines[1..]);
      assert IsLine(lines[0]);
      if |lines| > 1 {
        assert Terminated(lines[0]) && !Seam(lines[0], lines[1]) && IsLine(lines[1]);
        FirstOfJoin(lines[1..]);
      }
      LineEndExtended(l, more);
      assert Clean(lines[1..]) by {
        CleanTail(lines);
      }
      CleanSplits(lines[1..]);
      assert (l + more)[..|l|] == l && (l + more)[|l|..] == more;
    }
  }

  lemma CleanTail(lines: seq<Bytes>)
    requires lines != [] && Clean(lines)
    ensures Clean(lines[1..])
  {
    forall i | 0 <= i < |lines[1..]| - 1
      ensures Terminated(lines[1..][i]) && !Seam(lines[1..][i], lines[1..][i + 1])
    {
      assert Terminated(lines[i + 1]) && !Seam(lines[i + 1], lines[i + 2]);
    }
  }

  // ----- dealing out ---------------------------------------------------------------------------------------------

  /** `rows[i::step]`. */
  function Stride<T>(rows: seq<T>, i: nat, step: nat): seq<T>
    requires step > 0
    decreases |rows| - i
  {
    if i >= |rows| then [] else [rows[i]] + Stride(rows, i + step, step)
  }

  /** The rows a slave gets: every step-th one from its own number on, up to the last. */
  lemma {:induction false} StrideHolds<T>(rows: seq<T>, i: nat, step: nat)
    requires step > 0
    ensures |rows| <= i + |Stride(rows, i, step)| * step
    ensures forall j | 0 <= j < |Stride(rows, i, step)| ::
      0 <= i + j * step < |rows| && Stride(rows, i, step)[j] == rows[i + j * step]
    decreases |rows| - i
  {
    if i < |rows| {
      StrideHolds(rows, i + step, step);
      var own, rest := Stride(rows, i, step), Stride(rows, i + step, step);
      OneMore(|rest|, step);
      forall j | 0 <= j < |own|
        ensures 0 <= i + j * step < |rows| && own[j] == rows[i + j * step]
      {
        if j > 0 {
          OneMore(j - 1, step);
          assert own[j] == rest[j - 1];
        }
      }
    }
  }

  lemma OneMore(j: nat, step: nat)
    ensures (j + 1) * step == j * step + step
    ensures j * step >= 0
  {}

  /** `_split_csv_lines_for_slaves` after its header was taken off. */
  function Chunks(header: Bytes, rows: seq<Bytes>, slaves: nat): seq<Bytes> {
    if rows == [] then seq(if slaves > 1 then slaves else 1, i => header)
    else seq(slaves, i requires 0 <= i < slaves => header + Join(Stride(rows, i, slaves)))
  }

  /** A header is kept apart only when something follows it. */
  predicate HeaderKept(lines: seq<Bytes>, keepFirstLine: bool) { keepFirstLine && |lines| > 1 }

  function Header(lines: seq<Bytes>, keepFirstLine: bool): Bytes { if HeaderKept(lines, keepFirstLine) then lines[0] else [] }

  function Rows(lines: seq<Bytes>, keepFirstLine: bool): seq<Bytes> {
    if HeaderKept(lines, keepFirstLine) then lines[1..] else lines
  }

  /** Line h + k stands at place k / n of the part k % n. */
  ghost predicate Stands(lines: seq<Bytes>, h: nat, parts: seq<seq<Bytes>>, n: nat, k: nat)
    requires n > 0 && h + k < |lines| && |parts| == n
  {
    0 <= k / n < |parts[k % n]| && parts[k % n][k / n] == lines[h + k]
  }

  /** What stands at place j of part i is line h + i + j n. */
  ghost predicate IsDealt(lines: seq<Bytes>, h: nat, parts: seq<seq<Bytes>>, n: nat, i: nat, j: nat)
    requires i < |parts| && j < |parts[i]|
  {
    0 <= h + i + j * n < |lines| && parts[i][j] == lines[h + i + j * n]
  }

  ghost predicate Deals(lines: seq<Bytes>, h: nat, parts: seq<seq<Bytes>>, n: nat)
    requires n > 0 && h <= |lines|
  {
    && |parts| == n
    && (forall k: nat | h + k < |lines| :: Stands(lines, h, parts, n, k))
    && (forall i: nat, j: nat | i < n && j < |parts[i]| :: IsDealt(lines, h, parts, n, i, j))
  }

  /** The chunks hold each line once, dealt out in turn; with a header to keep and something after it
      each starts with the first line and the others are dealt out. An empty file makes empty chunks. */
  ghost predicate DealtOut(lines: seq<Bytes>, slaves: nat, keepFirstLine: bool, chunks: seq<Bytes>) {
    if lines == [] then
      |chunks| == (if slaves > 1 then slaves else 1) && forall i | 0 <= i < |chunks| :: chunks[i] == []
    else
      var h := if keepFirstLine && |lines| > 1 then 1 else 0;
      && |chunks| == slaves
      && (slaves > 0 ==> exists parts ::
            Deals(lines, h, parts, slaves) && forall i | 0 <= i < slaves :: chunks[i] == Join(lines[..h] + parts[i]))
  }

  lemma RowsDeal(lines: seq<Bytes>, h: nat, n: nat)
    requires n > 0 && h <= |lines|
    ensures Deals(lines, h, Dealt(lines[h..], n), n)
  {
    hide Stride, Dealt;
    var rows, parts := lines[h..], Dealt(lines[h..], n);
    DealtLength(rows, n);
    DealingLosesNothing(rows, n);
    forall i: nat, j: nat | i < n && j < |parts[i]|
      ensures IsDealt(lines, h, parts, n, i, j)
    {
      DealtAt(rows, n, i, j);
    }
    forall k: nat | h + k < |lines|
      ensures Stands(lines, h, parts, n, k)
    {
      DivMod(k, n);
      assert rows[k] == lines[h + k];
    }
  }

  lemma DealtAt<T>(rows: seq<T>, n: nat, i: nat, j: nat)
    requires n > 0 && j < |Stride(rows, i, n)|
    ensures 0 <= i + j * n < |rows| && Stride(rows, i, n)[j] == rows[i + j * n]
  {
    StrideHolds(rows, i, n);
  }

  lemma DealtLength<T>(rows: seq<T>, n: nat)
    requires n > 0
    ensures |Dealt(rows, n)| == n && forall i | 0 <= i < n :: Dealt(rows, n)[i] == Stride(rows, i, n)
  {}

  lemma ChunksDealOut(lines: seq<Bytes>, keepFirstLine: bool, slaves: nat)
    ensures DealtOut(lines, slaves, keepFirstLine, Chunks(Header(lines, keepFirstLine), Rows(lines, keepFirstLine), slaves))
  {
    if lines != [] && slaves > 0 {
      hide Stride, Dealt, Deals;
      var h := if keepFirstLine && |lines| > 1 then 1 else 0;
      var parts := Dealt(lines[h..], slaves);
      RowsDeal(lines, h, slaves);
      DealtLength(lines[h..], slaves);
      assert lines[h..] == Rows(lines, keepFirstLine);
      forall i | 0 <= i < slaves
        ensures Header(lines, keepFirstLine) + Join(parts[i]) == Join(lines[..h] + parts[i])
      {
        if h == 1 {
          assert (lines[..1] + parts[i])[1..] == parts[i];
        } else {
          assert lines[..0] + parts[i] == parts[i] && [] + Join(parts[i]) == Join(parts[i]);
        }
      }
    }
  }

  /** `_split_csv_lines_for_slaves`. */
  method SplitCsvLinesForSlaves(data: Bytes, slaves: nat, keepFirstLine: bool) returns (chunks: seq<Bytes>)
    ensures var lines := SplitKeep(data); chunks == Chunks(Header(lines, keepFirstLine), Rows(lines, keepFirstLine), slaves)
    ensures DealtOut(SplitKeep(data), slaves, keepFirstLine, chunks)
  {
    hide DealtOut, SplitKeep, Stride, Join;
    var lines := SplitKeep(data);
    ChunksDealOut(lines, keepFirstLine, slaves);
    if lines == [] {
      return seq(if slaves > 1 then slaves else 1, i => []);
    }
    var header := if keepFirstLine && |lines| > 1 then lines[0] else [];
    var rows := if keepFirstLine && |lines| > 1 then lines[1..] else lines;
    chunks := [];
    for i := 0 to slaves
      invariant chunks == seq(i, k requires 0 <= k < i => header + Join(Stride(rows, k, slaves)))
    {
      chunks := chunks + [header + Join(Stride(rows, i, slaves))];
    }
  }

  /** The row lists dealt out to the slaves. */
  function Dealt<T>(rows: seq<T>, slaves: nat): seq<seq<T>>
    requires slaves > 0
  {
    seq(slaves, i requires 0 <= i < slaves => Stride(rows, i, slaves))
  }

  lemma DivMod(k: nat, step: nat)
    requires step > 0
    ensures k == k % step + (k / step) * step && 0 <= k % step < step && k / step >= 0
  {}

  lemma InStride<T>(rows: seq<T>, k: nat, step: nat)
    requires step > 0 && k < |rows|
    ensures k / step < |Stride(rows, k % step, step)|
    ensures Stride(rows, k % step, step)[k / step] == rows[k]
  {
    DivMod(k, step);
    StrideHolds(rows, k % step, step);
    var m := |Stride(rows, k % step, step)|;
    if m <= k / step {
      Scaled(m, k / step, step);
    }
  }

  lemma Scaled(a: nat, b: nat, step: nat)
    requires a <= b
    ensures a * step <= b * step
  {
    assert b * step == a * step + (b - a) * step;
  }

  lemma CountsDiffer<T>(rows: seq<T>, a: nat, b: nat, step: nat)
    requires step > 0 && a < step && b < step
    ensures |Stride(rows, a, step)| <= |Stride(rows, b, step)| + 1
  {
    StrideHolds(rows, a, step);
    StrideHolds(rows, b, step);
    var m, n := |Stride(rows, a, step)|, |Stride(rows, b, step)|;
    if m >= n + 2 {
      Scaled(n + 1, m - 1, step);
      OneMore(n, step);
    }
  }

  /** Taking the slaves' rows in turn rebuilds the file's rows in order; no slave has more than one
      row more than another. */
  lemma DealingLosesNothing<T>(rows: seq<T>, slaves: nat)
    requires slaves > 0
    ensures forall k | 0 <= k < |rows| ::
      k / slaves < |Dealt(rows, slaves)[k % slaves]| && Dealt(rows, slaves)[k % slaves][k / slaves] == rows[k]
    ensures forall i, j | 0 <= i < slaves && 0 <= j < |Dealt(rows, slaves)[i]| ::
      0 <= i + j * slaves < |rows| && Dealt(rows, slaves)[i][j] == rows[i + j * slaves]
    ensures forall a, b | 0 <= a < slaves && 0 <= b < slaves ::
      |Dealt(rows, slaves)[a]| <= |Dealt(rows, slaves)[b]| + 1
  {
    forall k | 0 <= k < |rows|
      ensures k / slaves < |Dealt(rows, slaves)[k % slaves]| && Dealt(rows, slaves)[k % slaves][k / slaves] == rows[k]
    {
      InStride(rows, k, slaves);
    }
    forall i | 0 <= i < slaves
      ensures forall j | 0 <= j < |Dealt(rows, slaves)[i]| ::
        0 <= i + j * slaves < |rows| && Dealt(rows, slaves)[i][j] == rows[i + j * slaves]
    {
      StrideHolds(rows, i, slaves);
    }
    forall a, b | 0 <= a < slaves && 0 <= b < slaves
      ensures |Dealt(rows, slaves)[a]| <= |Dealt(rows, slaves)[b]| + 1
    {
      CountsDiffer(rows, a, b, slaves);
    }
  }

  // ----- reading a chunk back --------------------------------------------------------------------------------------

  /** The pieces a slave's chunk is joined from. */
  function Pieces(lines: seq<Bytes>, keepFirstLine: bool, i: nat, slaves: nat): seq<Bytes>
    requires i < slaves
  {
    (if HeaderKept(lines, keepFirstLine) then [lines[0]] else []) + Stride(Rows(lines, keepFirstLine), i, slaves)
  }

  lemma {:induction false} ChunkOfPieces(lines: seq<Bytes>, keepFirstLine: bool, i: nat, slaves: nat)
    requires i < slaves && lines != []
    ensures
      var chunks := Chunks(Header(lines, keepFirstLine), Rows(lines, keepFirstLine), slaves);
      |chunks| == slaves && chunks[i] == Join(Pieces(lines, keepFirstLine, i, slaves))
  {
    var own := Stride(Rows(lines, keepFirstLine), i, slaves);
    if HeaderKept(lines, keepFirstLine) {
      assert ([lines[0]] + own)[1..] == own;
    } else {
      assert [] + own == own && [] + Join(own) == Join(own);
    }
  }

  /** Where the dealing brought two pieces together that read as one. */
  predicate HasSeam(pieces: seq<Bytes>) { exists j :: 0 <= j < |pieces| - 1 && Seam(pieces[j], pieces[j + 1]) }

  /** Every piece is a line of the file, and each but the last is terminated. */
  lemma PiecesAreLines(lines: seq<Bytes>, keepFirstLine: bool, i: nat, slaves: nat)
    requires i < slaves && lines != [] && Clean(lines)
    ensures
      var pieces := Pieces(lines, keepFirstLine, i, slaves);
      && (forall j | 0 <= j < |pieces| :: pieces[j] in lines && IsLine(pieces[j]))
      && (forall j | 0 <= j < |pieces| - 1 :: Terminated(pieces[j]))
  {
    var rows, pieces := Rows(lines, keepFirstLine), Pieces(lines, keepFirstLine, i, slaves);
    var own := Stride(rows, i, slaves);
    var h := if HeaderKept(lines, keepFirstLine) then 1 else 0;
    StrideHolds(rows, i, slaves);
    forall j | 0 <= j < |own|
      ensures own[j] in lines && IsLine(own[j])
      ensures j < |own| - 1 ==> Terminated(own[j])
    {
      assert own[j] == rows[i + j * slaves] == lines[h + i + j * slaves];
      if j < |own| - 1 {
        OneMore(j, slaves);
        assert i + (j + 1) * slaves < |rows|;
      }
    }
    assert h == 1 ==> Terminated(lines[0]) && IsLine(lines[0]);
    forall j | 0 <= j < |pieces|
      ensures pieces[j] in lines && IsLine(pieces[j])
      ensures j < |pieces| - 1 ==> Terminated(pieces[j])
    {
      if j >= h {
        assert pieces[j] == own[j - h];
      }
    }
  }

  /** Splitting a slave's chunk again yields exactly its header and its rows when and only when no
      two of them meet at a seam; in particular when no line ends in a bare CR. An unterminated
      last line of the file is the last of its chunk. */
  lemma ChunkReadsBack(data: Bytes, keepFirstLine: bool, i: nat, slaves: nat)
    requires i < slaves && data != []
    ensures
      var lines := SplitKeep(data);
      var chunks := Chunks(Header(lines, keepFirstLine), Rows(lines, keepFirstLine), slaves);
      var pieces := Pieces(lines, keepFirstLine, i, slaves);
      && |chunks| == slaves
      && (SplitKeep(chunks[i]) == pieces <==> !HasSeam(pieces))
      && ((forall l | l in lines :: !EndsInCr(l)) ==> SplitKeep(chunks[i]) == pieces)
  {
    var lines := SplitKeep(data);
    SplitIsClean(data);
    ChunkOfPieces(lines, keepFirstLine, i, slaves);
    PiecesAreLines(lines, keepFirstLine, i, slaves);
    SplitOfJoin(Pieces(lines, keepFirstLine, i, slaves));
  }
}
