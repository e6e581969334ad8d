/** Per-transaction statistics and curves of a JTL file, against the overall ones. */
module Transactions {
  import opened Numbers
  import opened Options
  import opened Sets
  import opened Jtl
  import opened MetricBuckets

  const UNNAMED := "未命名事务"
  const TOTAL := "Total"

  // ----- rows ----------------------------------------------------------------------------------------------------

  /** A row of `csv.DictReader`; None stands under the columns a short row does not reach. */
  type DictRow = map<string, Option<string>>

  /** The texts of a row: `row.get(column) or ""` sees no others. */
  function Known(row: DictRow): Row { map column | column in row && row[column].Some? :: row[column].value }

  function AllKnown(rows: seq<DictRow>): seq<Row> { seq(|rows|, i requires 0 <= i < |rows| => Known(rows[i])) }

  /** `int(row.get(column, "0"))`, None when it raises. */
  function IntAt(c: Config, row: DictRow, column: string): Option<int> {
    if column !in row then c.decoder.toInt("0")
    else if row[column].None? then None
    else c.decoder.toInt(row[column].value)
  }

  /** `str(row.get("success", "true")).lower() == "true"`. */
  predicate Succeeded(row: DictRow) {
    IsTrue(if "success" !in row then "true" else if row["success"].Some? then row["success"].value else "None")
  }

  function LabelOf(c: Config, row: Row): string {
    var raw :=
      if Get(row, "label") != "" then Get(row, "label")
      else if Get(row, "Label") != "" then Get(row, "Label")
      else UNNAMED;
    if c.decoder.strip(raw) != "" then c.decoder.strip(raw) else UNNAMED
  }

  /** `_to_int`, as a parameter: `int(float(text or 0))`, 0 when it raises. */
  type IntReader = string -> int

  datatype Labelled = Labelled(name: string, sample: Sample)

  /** The sample a row stands for in the transaction parsers, or None where they skip it. */
  function ParseTransaction(c: Config, read: IntReader, row: DictRow): (l: Option<Labelled>)
    ensures l.Some? ==> l.value.sample.timestampMs > 0
  {
    var t, e, known := IntAt(c, row, "timeStamp"), IntAt(c, row, "elapsed"), Known(row);
    if t.None? || e.None? || t.value <= 0 then None
    else
      var own := read(Get(known, "grpThreads"));
      var threads := NormalizeThreads(if own > 0 then own else read(Get(known, "allThreads")), c.meta);
      Some(Labelled(LabelOf(c, known),
                    Sample(t.value, e.value, Succeeded(row), threads, c.decoder.strip(Get(known, "threadName")))))
  }

  /** Every row the overall parser takes, the transaction parsers take, with the same time and
      outcome. */
  lemma OverallIsTransaction(c: Config, read: IntReader, row: DictRow)
    requires ParseRow(c, Known(row)).Some?
    ensures ParseTransaction(c, read, row).Some?
    ensures
      var a, b := ParseRow(c, Known(row)).value, ParseTransaction(c, read, row).value.sample;
      a.timestampMs == b.timestampMs && a.elapsed == b.elapsed && a.success == b.success
  {}

  /** The name of a row's transaction: its label, under either spelling, without the white space on
      either side, or the stand-in when there is none. */
  lemma LabelTold(c: Config, row: Row, raw: string)
    requires Holds(row, "label", raw) || (Get(row, "label") == "" && Holds(row, "Label", raw))
      || (Get(row, "label") == "" && Get(row, "Label") == "" && raw == "未命名事务")
    ensures LabelOf(c, row) == if c.decoder.strip(raw) != "" then c.decoder.strip(raw) else "未命名事务"
  {}

  /** A row is a transaction's sample exactly when its time and elapsed time read, zero where there is
      no such column, and the time is positive; it succeeded when there is no such column or the text
      says so; the group's threads go before all. */
  lemma TransactionReadsAs(c: Config, read: IntReader, row: DictRow, t: string, e: string)
    requires "timeStamp" in row ==> row["timeStamp"] == Some(t)
    requires "elapsed" in row ==> row["elapsed"] == Some(e)
    requires "timeStamp" !in row ==> t == "0"
    requires "elapsed" !in row ==> e == "0"
    ensures
      var time, elapsed := c.decoder.toInt(t), c.decoder.toInt(e);
      if time.Some? && elapsed.Some? && time.value > 0 then
        && ParseTransaction(c, read, row).Some?
        && var l := ParseTransaction(c, read, row).value;
           && l.name == LabelOf(c, Known(row)) && l.sample.timestampMs == time.value && l.sample.elapsed == elapsed.value
           && (l.sample.success <==> "success" !in row || (row["success"].Some? && Lowered(row["success"].value) == "true"))
           && l.sample.threads ==
                NormalizeThreads(if read(Get(Known(row), "grpThreads")) > 0 then read(Get(Known(row), "grpThreads"))
                                 else read(Get(Known(row), "allThreads")), c.meta)
      else ParseTransaction(c, read, row).None?
  {
    IsTrueExactly(if "success" !in row then "true" else if row["success"].Some? then row["success"].value else "None");
    assert Lowered("None") == "none" && Lowered("true") == "true";
  }

  /** A row too short for its time or its elapsed time is skipped. */
  lemma ShortRowIsSkipped(c: Config, read: IntReader, row: DictRow, column: string)
    requires column in {"timeStamp", "elapsed"} && column in row && row[column].None?
    ensures ParseTransaction(c, read, row).None?
  {}

  function TransactionsIn(c: Config, read: IntReader, rows: seq<DictRow>): (ls: seq<Labelled>)
    ensures forall l | l in ls :: l.sample.timestampMs > 0
  {
    if rows == [] then []
    else
      var l := ParseTransaction(c, read, rows[|rows| - 1]);
      TransactionsIn(c, read, rows[..|rows| - 1]) + (if l.Some? then [l.value] else [])
  }

  // ----- statistics ------------------------------------------------------------------------------------------------

  /** One group's running figures. */
  datatype Stats = Stats(
    elapsedSum: int, maxElapsed: int, minElapsed: Option<int>, failed: nat, samples: nat, startTs: int, endTs: int)

  const NO_STATS := Stats(0, 0, None, 0, 0, 0, 0)

  /** The loop body for one target, with `_touch_duration`. */
  function AddStats(x: Stats, s: Sample): Stats {
    var end := s.timestampMs + Max(0, s.elapsed);
    Stats(
      x.elapsedSum + s.elapsed,
      Max(x.maxElapsed, s.elapsed),
      Some(if x.minElapsed.None? then s.elapsed else Min(x.minElapsed.value, s.elapsed)),
      x.failed + (if s.success then 0 else 1),
      x.samples + 1,
      if x.startTs <= 0 || s.timestampMs < x.startTs then s.timestampMs else x.startTs,
      if end > x.endTs then end else x.endTs)
  }

  function StatsOf(ls: seq<Labelled>): Stats {
    if ls == [] then NO_STATS else AddStats(StatsOf(ls[..|ls| - 1]), ls[|ls| - 1].sample)
  }

  function Only(ls: seq<Labelled>, name: string): seq<Labelled> {
    if ls == [] then []
    else Only(ls[..|ls| - 1], name) + if ls[|ls| - 1].name == name then [ls[|ls| - 1]] else []
  }

  function Labels(ls: seq<Labelled>): set<string> { set l | l in ls :: l.name }

  function GroupsOf(ls: seq<Labelled>): map<string, Stats> { map name | name in Labels(ls) :: StatsOf(Only(ls, name)) }

  lemma OneMore(ls: seq<Labelled>, l: Labelled, name: string)
    ensures StatsOf(ls + [l]) == AddStats(StatsOf(ls), l.sample)
    ensures Only(ls + [l], name) == Only(ls, name) + if l.name == name then [l] else []
    ensures Labels(ls + [l]) == Labels(ls) + {l.name}
    ensures name !in Labels(ls) ==> Only(ls, name) == []
  {
    assert (ls + [l])[..|ls|] == ls;
    assert l in ls + [l] && forall x | x in ls :: x in ls + [l];
    if name !in Labels(ls) {
      OnlyNone(ls, name);
    }
  }

  lemma {:induction false} OnlyNone(ls: seq<Labelled>, name: string)
    requires name !in Labels(ls)
    ensures Only(ls, name) == []
  {
    if ls != [] {
      var init, l := ls[..|ls| - 1], ls[|ls| - 1];
      assert l in ls && l.name in Labels(ls);
      assert forall x | x in init :: x in ls;
      OnlyNone(init, name);
    }
  }

  lemma GroupsGrow(ls: seq<Labelled>, l: Labelled)
    ensures
      var groups := GroupsOf(ls);
      GroupsOf(ls + [l]) == groups[l.name := AddStats(if l.name in groups then groups[l.name] else NO_STATS, l.sample)]
  {
    hide StatsOf, Only, AddStats;
    forall x | x in Labels(ls + [l])
      ensures StatsOf(Only(ls + [l], x)) ==
        if x == l.name then AddStats(if x in Labels(ls) then StatsOf(Only(ls, x)) else NO_STATS, l.sample) else StatsOf(Only(ls, x))
    {
      OneMore(ls, l, x);
      GroupGrows(ls, l, x);
    }
    OneMore(ls, l, l.name);
  }

  lemma GroupGrows(init: seq<Labelled>, l: Labelled, x: string)
    ensures x == l.name ==> StatsOf(Only(init, x) + [l]) == AddStats(StatsOf(Only(init, x)), l.sample)
    ensures x !in Labels(init) ==> StatsOf(Only(init, x)) == NO_STATS
    ensures Only(init, x) + [] == Only(init, x)
  {
    assert (Only(init, x) + [l])[..|Only(init, x)|] == Only(init, x);
    if x !in Labels(init) {
      OnlyNone(init, x);
    }
  }

  /** `_parse_jtl_transaction_stats` up to its rows: the groups and the total grow side by side. */
  method ParseTransactionStats(ls: seq<Labelled>) returns (groups: map<string, Stats>, total: Stats)
    ensures groups == GroupsOf(ls) && total == StatsOf(ls)
  {
    groups, total := map[], NO_STATS;
    for k := 0 to |ls|
      invariant groups == GroupsOf(ls[..k]) && total == StatsOf(ls[..k])
    {
      hide StatsOf, GroupsOf, AddStats;
      assert ls[..k + 1] == ls[..k] + [ls[k]];
      GroupsGrow(ls[..k], ls[k]);
      OneMore(ls[..k], ls[k], ls[k].name);
      var group := if ls[k].name in groups then groups[ls[k].name] else NO_STATS;
      groups := groups[ls[k].name := AddStats(group, ls[k].sample)];
      total := AddStats(total, ls[k].sample);
    }
    assert ls[..|ls|] == ls;
  }

  // ----- what the figures say ----------------------------------------------------------------------------------------

  function FailedOf(ls: seq<Labelled>): set<nat> { set i: nat | i < |ls| && !ls[i].sample.success }

  /** When a sample ends. */
  function EndOf(s: Sample): int { s.timestampMs + if s.elapsed > 0 then s.elapsed else 0 }

  /** How many samples, how many of them failed, and the sum of their elapsed times. */
  ghost predicate CountsTell(x: Stats, ls: seq<Labelled>) {
    && x.samples == |ls| && x.failed == |FailedOf(ls)|
    && x.elapsedSum == Sum(seq(|ls|, i requires 0 <= i < |ls| => ls[i].sample.elapsed))
  }

  /** The highest (at least zero) and the lowest of the elapsed times. */
  ghost predicate ElapsedTell(x: Stats, ls: seq<Labelled>) {
    && (forall l | l in ls :: l.sample.elapsed <= x.maxElapsed)
    && 0 <= x.maxElapsed && (x.maxElapsed == 0 || exists l :: l in ls && l.sample.elapsed == x.maxElapsed)
    && x.minElapsed.Some? && (forall l | l in ls :: x.minElapsed.value <= l.sample.elapsed)
    && (exists l :: l in ls && l.sample.elapsed == x.minElapsed.value)
  }

  /** The first start and the last end. */
  ghost predicate SpanTells(x: Stats, ls: seq<Labelled>) {
    && (forall l | l in ls :: x.startTs <= l.sample.timestampMs) && (exists l :: l in ls && l.sample.timestampMs == x.startTs)
    && (forall l | l in ls :: EndOf(l.sample) <= x.endTs) && (exists l :: l in ls && EndOf(l.sample) == x.endTs)
  }

  /** What the figures of a non-empty group say. */
  lemma {:induction false} StatsTold(ls: seq<Labelled>)
    requires ls != [] && forall l | l in ls :: l.sample.timestampMs > 0
    ensures CountsTell(StatsOf(ls), ls) && ElapsedTell(StatsOf(ls), ls) && SpanTells(StatsOf(ls), ls)
  {
    hide CountsTell, ElapsedTell, SpanTells, AddStats;
    var n := |ls| - 1;
    var init, last := ls[..n], ls[n];
    assert ls == init + [last] && last in ls;
    if init == [] {
      OneTold(ls);
    } else {
      assert forall l | l in init :: l in ls;
      StatsTold(init);
      CountMore(StatsOf(init), init, last);
      ElapsedMore(StatsOf(init), init, last);
      SpanMore(StatsOf(init), init, last);
    }
  }

  lemma OneTold(ls: seq<Labelled>)
    requires |ls| == 1 && ls[0].sample.timestampMs > 0
    ensures CountsTell(StatsOf(ls), ls) && ElapsedTell(StatsOf(ls), ls) && SpanTells(StatsOf(ls), ls)
  {
    var l := ls[0];
    assert ls[..0] == [] && StatsOf(ls) == AddStats(NO_STATS, l.sample);
    assert FailedOf(ls) == if l.sample.success then {} else {0};
    var elapsed := seq(|ls|, i requires 0 <= i < |ls| => ls[i].sample.elapsed);
    assert elapsed[..0] == [] && Sum(elapsed) == l.sample.elapsed;
    assert l in ls;
  }

  lemma CountMore(x: Stats, init: seq<Labelled>, l: Labelled)
    requires CountsTell(x, init)
    ensures CountsTell(AddStats(x, l.sample), init + [l])
  {
    var ls, n := init + [l], |init|;
    assert FailedOf(ls) == if l.sample.success then FailedOf(init) else FailedOf(init) + {n};
    var elapsed := seq(|ls|, i requires 0 <= i < |ls| => ls[i].sample.elapsed);
    assert elapsed[..n] == seq(n, i requires 0 <= i < n => init[i].sample.elapsed);
  }

  lemma ElapsedMore(x: Stats, init: seq<Labelled>, l: Labelled)
    requires ElapsedTell(x, init)
    ensures ElapsedTell(AddStats(x, l.sample), init + [l])
  {
    assert l in init + [l] && forall y :: y in init + [l] <==> y in init || y == l;
  }

  lemma SpanMore(x: Stats, init: seq<Labelled>, l: Labelled)
    requires SpanTells(x, init) && l.sample.timestampMs > 0 && forall y | y in init :: y.sample.timestampMs > 0
    ensures SpanTells(AddStats(x, l.sample), init + [l])
  {
    assert l in init + [l] && forall y :: y in init + [l] <==> y in init || y == l;
  }

  /** A group is the samples of its name, each as often as the file has it. */
  lemma {:induction false} OnlyHolds(ls: seq<Labelled>, name: string)
    ensures forall l :: multiset(Only(ls, name))[l] == (if l.name == name then multiset(ls)[l] else 0)
  {
    if ls != [] {
      var init, last := ls[..|ls| - 1], ls[|ls| - 1];
      OnlyHolds(init, name);
      assert ls == init + [last] && multiset(ls) == multiset(init) + multiset{last};
      var own := if last.name == name then [last] else [];
      assert Only(ls, name) == Only(init, name) + own;
      assert multiset(Only(ls, name)) == multiset(Only(init, name)) + multiset(own);
    }
  }

  // ----- the total is the merge --------------------------------------------------------------------------------------

  function MinOf(a: Option<int>, b: Option<int>): Option<int> {
    if a.None? then b else if b.None? then a else Some(Min(a.value, b.value))
  }

  function StartOf(a: int, b: int): int { if a <= 0 then b else if b <= 0 then a else Min(a, b) }

  function Merge(a: Stats, b: Stats): Stats {
    Stats(a.elapsedSum + b.elapsedSum, Max(a.maxElapsed, b.maxElapsed), MinOf(a.minElapsed, b.minElapsed), a.failed + b.failed,
          a.samples + b.samples, StartOf(a.startTs, b.startTs), Max(a.endTs, b.endTs))
  }

  function MergeAll(ls: seq<Labelled>, labels: seq<string>): Stats {
    if labels == [] then NO_STATS
    else Merge(MergeAll(ls, labels[..|labels| - 1]), StatsOf(Only(ls, labels[|labels| - 1])))
  }

  /** Adding to one side of a merge adds to the merge. */
  lemma AddMerged(a: Stats, b: Stats, s: Sample)
    requires s.timestampMs > 0 && 0 <= a.startTs && 0 <= b.startTs
    ensures Merge(AddStats(a, s), b) == AddStats(Merge(a, b), s) == Merge(a, AddStats(b, s))
  {}

  lemma {:induction false} StartNonNegative(ls: seq<Labelled>)
    requires forall l | l in ls :: l.sample.timestampMs > 0
    ensures StatsOf(ls).startTs >= 0
  {
    if ls != [] {
      assert ls[|ls| - 1] in ls;
      StartNonNegative(ls[..|ls| - 1]);
    }
  }

  lemma {:induction false} OnlyPositive(ls: seq<Labelled>, name: string)
    requires forall l | l in ls :: l.sample.timestampMs > 0
    ensures forall l | l in Only(ls, name) :: l.sample.timestampMs > 0
  {
    if ls != [] {
      assert ls[|ls| - 1] in ls;
      OnlyPositive(ls[..|ls| - 1], name);
    }
  }

  lemma {:induction false} MergedStart(ls: seq<Labelled>, labels: seq<string>)
    requires forall l | l in ls :: l.sample.timestampMs > 0
    ensures MergeAll(ls, labels).startTs >= 0
  {
    if labels != [] {
      MergedStart(ls, labels[..|labels| - 1]);
      OnlyPositive(ls, labels[|labels| - 1]);
      StartNonNegative(Only(ls, labels[|labels| - 1]));
    }
  }

  /** One sample more changes the merge by that sample, in whichever group it is. */
  lemma {:induction false} MergeGrows(ls: seq<Labelled>, l: Labelled, labels: seq<string>)
    requires Distinct(labels) && (forall x | x in ls :: x.sample.timestampMs > 0) && l.sample.timestampMs > 0
    ensures MergeAll(ls + [l], labels) ==
      if l.name in labels then AddStats(MergeAll(ls, labels), l.sample) else MergeAll(ls, labels)
  {
    hide StatsOf, Only, AddStats, Merge;
    if labels != [] {
      var init, last := labels[..|labels| - 1], labels[|labels| - 1];
      MergeGrows(ls, l, init);
      OneMore(ls, l, last);
      OnlyPositive(ls, last);
      StartNonNegative(Only(ls, last));
      MergedStart(ls, init);
      AddMerged(MergeAll(ls, init), StatsOf(Only(ls, last)), l.sample);
      assert labels == init + [last];
      if last == l.name {
        assert last !in init;
        OneMore(Only(ls, last), l, last);
      } else {
        assert Only(ls, last) + [] == Only(ls, last);
      }
    }
  }

  lemma {:induction false} NothingMerged(ls: seq<Labelled>, labels: seq<string>)
    requires ls == []
    ensures MergeAll(ls, labels) == NO_STATS
  {
    hide Only, StatsOf, Merge;
    if labels != [] {
      NothingMerged(ls, labels[..|labels| - 1]);
      NothingOfOne(ls, labels[|labels| - 1]);
    }
  }

  lemma NothingOfOne(ls: seq<Labelled>, name: string)
    requires ls == []
    ensures StatsOf(Only(ls, name)) == NO_STATS && Merge(NO_STATS, NO_STATS) == NO_STATS
  {
    hide Max, MinOf, StartOf;
    NothingInParts();
    assert Only(ls, name) == [];
  }

  lemma NothingInParts()
    ensures Max(0, 0) == 0 && MinOf(None, None) == None && StartOf(0, 0) == 0
  {}

  /** The total is exactly the merge of the groups, in whatever order they are listed: samples,
      failures, elapsed sum, maximum, minimum and time span. */
  lemma {:induction false} TotalIsMerge(ls: seq<Labelled>, labels: seq<string>)
    requires Distinct(labels) && (forall l | l in ls :: l.name in labels && l.sample.timestampMs > 0)
    ensures MergeAll(ls, labels) == StatsOf(ls)
  {
    if ls == [] {
      NothingMerged(ls, labels);
    } else {
      var init, l := ls[..|ls| - 1], ls[|ls| - 1];
      assert ls == init + [l] && l in ls && forall x | x in init :: x in ls;
      TotalIsMerge(init, labels);
      MergeGrows(init, l, labels);
    }
  }

  // ----- the saved table -----------------------------------------------------------------------------------------------

  /** The rows in the order they are saved: the total, then the groups, one called Total first. */
  function StatRows(ls: seq<Labelled>, labels: seq<string>): seq<(string, Stats)> {
    [(TOTAL, StatsOf(ls))] + seq(|labels|, i requires 0 <= i < |labels| => (labels[i], StatsOf(Only(ls, labels[i]))))
  }

  /** An upsert per row, under its name. */
  function UpsertAll(rows: seq<(string, Stats)>): map<string, Stats> {
    if rows == [] then map[] else UpsertAll(rows[..|rows| - 1])[rows[|rows| - 1].0 := rows[|rows| - 1].1]
  }

  /** `_save_transaction_snapshots` on an emptied table. */
  method SaveTransactionSnapshots(rows: seq<(string, Stats)>) returns (table: map<string, Stats>)
    ensures table == UpsertAll(rows)
  {
    table := map[];
    for k := 0 to |rows|
      invariant table == UpsertAll(rows[..k])
    {
      assert rows[..k + 1][..k] == rows[..k];
      table := table[rows[k].0 := rows[k].1];
    }
    assert rows[..|rows|] == rows;
  }

  /** The last row of a name is the one that stays. */
  lemma {:induction false} LastUpsertStays(rows: seq<(string, Stats)>, k: nat)
    requires k < |rows| && forall j | k < j < |rows| :: rows[j].0 != rows[k].0
    ensures rows[k].0 in UpsertAll(rows) && UpsertAll(rows)[rows[k].0] == rows[k].1
  {
    if k < |rows| - 1 {
      LastUpsertStays(rows[..|rows| - 1], k);
    }
  }

  lemma {:induction false} SamplesCounted(ls: seq<Labelled>)
    ensures StatsOf(ls).samples == |ls|
  {
    if ls != [] {
      SamplesCounted(ls[..|ls| - 1]);
    }
  }

  /** Picking one name keeps everything if and only if nothing has another. */
  lemma {:induction false} OnlyKeepsAllIff(ls: seq<Labelled>, name: string)
    ensures |Only(ls, name)| <= |ls|
    ensures |Only(ls, name)| == |ls| <==> forall l | l in ls :: l.name == name
    ensures |Only(ls, name)| == |ls| ==> Only(ls, name) == ls
  {
    if ls != [] {
      var init, last := ls[..|ls| - 1], ls[|ls| - 1];
      hide Only;
      OnlyKeepsAllIff(init, name);
      assert ls == init + [last] && last in ls && forall l | l in init :: l in ls;
      OneMore(init, last, name);
      if |Only(ls, name)| == |ls| {
        forall l | l in ls
          ensures l.name == name
        {
          assert l in init || l == last;
        }
      }
    }
  }

  /** The saved Total row is the merge of all transactions if and only if none of them is called
      Total or all of them are; otherwise it is that transaction's own. */
  lemma SavedTotal(ls: seq<Labelled>, labels: seq<string>)
    requires Distinct(labels) && (forall name :: name in labels <==> name in Labels(ls))
    requires forall l | l in ls :: l.sample.timestampMs > 0
    ensures "Total" in UpsertAll(StatRows(ls, labels))
    ensures UpsertAll(StatRows(ls, labels))["Total"] ==
      if "Total" in labels then StatsOf(Only(ls, "Total")) else MergeAll(ls, labels)
    ensures UpsertAll(StatRows(ls, labels))["Total"] == MergeAll(ls, labels) <==>
      (forall l | l in ls :: l.name != "Total") || (forall l | l in ls :: l.name == "Total")
  {
    hide StatsOf, Only, MergeAll, Distinct, StatRows, UpsertAll;
    assert forall l | l in ls :: l.name in Labels(ls);
    TotalIsMerge(ls, labels);
    var k := LastTotal(ls, labels);
    LastUpsertStays(StatRows(ls, labels), k);
    if TOTAL in labels {
      OnlyKeepsAllIff(ls, TOTAL);
      SamplesCounted(ls);
      SamplesCounted(Only(ls, TOTAL));
    }
  }

  /** The last row called Total. */
  lemma LastTotal(ls: seq<Labelled>, labels: seq<string>) returns (k: nat)
    requires Distinct(labels)
    ensures k < |StatRows(ls, labels)| && StatRows(ls, labels)[k].0 == TOTAL
    ensures forall j | k < j < |StatRows(ls, labels)| :: StatRows(ls, labels)[j].0 != TOTAL
    ensures StatRows(ls, labels)[k].1 == if TOTAL in labels then StatsOf(Only(ls, TOTAL)) else StatsOf(ls)
  {
    hide StatsOf, Only;
    var rows := StatRows(ls, labels);
    assert forall j | 0 < j < |rows| :: rows[j].0 == labels[j - 1];
    if TOTAL in labels {
      var i :| 0 <= i < |labels| && labels[i] == TOTAL;
      k := i + 1;
    } else {
      k := 0;
    }
  }

  // ----- curves --------------------------------------------------------------------------------------------------------

  type CurveBuckets = map<(string, int), Bucket>

  function CurveBucketAt(buckets: CurveBuckets, name: string, key: int): Bucket {
    if (name, key) in buckets then buckets[(name, key)] else EMPTY_BUCKET
  }

  /** The buckets of `_parse_jtl_transaction_metrics`, one per transaction and window. */
  function CurveBucketsOf(c: Config, ls: seq<Labelled>): CurveBuckets {
    if ls == [] then map[]
    else
      var l, earlier := ls[|ls| - 1], CurveBucketsOf(c, ls[..|ls| - 1]);
      var key := c.Key(l.sample.timestampMs);
      earlier[(l.name, key) := AddToBucket(CurveBucketAt(earlier, l.name, key), l.sample)]
  }

  /** The loop of `_parse_jtl_transaction_metrics` that fills them. */
  method CollectCurves(c: Config, ls: seq<Labelled>) returns (buckets: CurveBuckets)
    ensures buckets == CurveBucketsOf(c, ls)
  {
    buckets := map[];
    for k := 0 to |ls|
      invariant buckets == CurveBucketsOf(c, ls[..k])
    {
      assert ls[..k + 1] == ls[..k] + [ls[k]];
      CurveStep(c, ls[..k], ls[k]);
      var name, key := ls[k].name, c.Key(ls[k].sample.timestampMs);
      var bucket := if (name, key) in buckets then buckets[(name, key)] else EMPTY_BUCKET;
      buckets := buckets[(name, key) := AddToBucket(bucket, ls[k].sample)];
    }
    assert ls[..|ls|] == ls;
  }

  function SamplesOf(ls: seq<Labelled>): seq<Sample> { seq(|ls|, i requires 0 <= i < |ls| => ls[i].sample) }

  /** A transaction's curve is the windows of its own samples, as the overall parser would count
      them. */
  lemma {:induction false} CurveIsOfOwnSamples(c: Config, ls: seq<Labelled>, name: string, key: int)
    ensures CurveBucketAt(CurveBucketsOf(c, ls), name, key) == BucketAt(BucketsOf(c, SamplesOf(Only(ls, name))), key)
  {
    if ls == [] {
      assert SamplesOf([]) == [];
    } else {
      hide AddToBucket, FloorTo;
      var init, l := ls[..|ls| - 1], ls[|ls| - 1];
      CurveIsOfOwnSamples(c, init, name, key);
      CurveIsOfOwnSamples(c, init, l.name, c.Key(l.sample.timestampMs));
      if l.name == name {
        assert SamplesOf(Only(init, name) + [l]) == SamplesOf(Only(init, name)) + [l.sample];
        OneSampleMore(c, SamplesOf(Only(init, name)), l.sample, key);
      } else {
        assert Only(init, name) + [] == Only(init, name);
      }
    }
  }

  /** Samples and failures of one window, over the transactions listed. */
  function CurveCount(buckets: CurveBuckets, labels: seq<string>, key: int): nat {
    if labels == [] then 0
    else CurveCount(buckets, labels[..|labels| - 1], key) + CurveBucketAt(buckets, labels[|labels| - 1], key).count
  }

  function CurveFail(buckets: CurveBuckets, labels: seq<string>, key: int): nat {
    if labels == [] then 0
    else CurveFail(buckets, labels[..|labels| - 1], key) + CurveBucketAt(buckets, labels[|labels| - 1], key).fail
  }

  /** How many of the rows fall into the window and are taken by the transaction parser alone; and
      how many of those failed. */
  function Extra(c: Config, read: IntReader, rows: seq<DictRow>, key: int, failedOnly: bool): nat {
    if rows == [] then 0
    else
      var row := rows[|rows| - 1];
      var l := ParseTransaction(c, read, row);
      Extra(c, read, rows[..|rows| - 1], key, failedOnly) +
      if ParseRow(c, Known(row)).None? && l.Some? && c.Key(l.value.sample.timestampMs) == key && (failedOnly ==> !l.value.sample.success)
      then 1 else 0
  }

  lemma {:induction false} CurveGrows(c: Config, buckets: CurveBuckets, l: Labelled, labels: seq<string>, key: int)
    requires Distinct(labels)
    ensures
      var own := c.Key(l.sample.timestampMs);
      var grown := buckets[(l.name, own) := AddToBucket(CurveBucketAt(buckets, l.name, own), l.sample)];
      var hit := own == key && l.name in labels;
      && CurveCount(grown, labels, key) == CurveCount(buckets, labels, key) + (if hit then 1 else 0)
      && CurveFail(grown, labels, key) == CurveFail(buckets, labels, key) + (if hit && !l.sample.success then 1 else 0)
  {
    if labels != [] {
      var init, last := labels[..|labels| - 1], labels[|labels| - 1];
      CurveGrows(c, buckets, l, init, key);
      assert labels == init + [last];
      if last == l.name {
        assert last !in init;
      }
    }
  }

  /** In every window the transactions' samples add up to the overall count, and their failures to
      the overall failures, but for the rows the transaction parser alone accepts: those are exactly
      the difference. */
  lemma {:induction false} CurvesAddUp(c: Config, read: IntReader, rows: seq<DictRow>, labels: seq<string>, key: int)
    requires Distinct(labels) && forall l | l in TransactionsIn(c, read, rows) :: l.name in labels
    ensures
      var curves := CurveBucketsOf(c, TransactionsIn(c, read, rows));
      var overall := BucketAt(BucketsOf(c, SamplesOfRows(c, AllKnown(rows))), key);
      && CurveCount(curves, labels, key) == overall.count + Extra(c, read, rows, key, false)
      && CurveFail(curves, labels, key) == overall.fail + Extra(c, read, rows, key, true)
  {
    hide ParseRow, ParseTransaction, BucketsOf, AddToBucket;
    if rows == [] {
      NoCurves(c, labels, key);
    } else {
      var init, row := rows[..|rows| - 1], rows[|rows| - 1];
      var ls, ss := TransactionsIn(c, read, init), SamplesOfRows(c, AllKnown(init));
      assert AllKnown(rows)[..|rows| - 1] == AllKnown(init) && AllKnown(rows)[|rows| - 1] == Known(row);
      assert forall l | l in ls :: l in TransactionsIn(c, read, rows);
      CurvesAddUp(c, read, init, labels, key);
      var l, s := ParseTransaction(c, read, row), ParseRow(c, Known(row));
      if s.Some? {
        OverallIsTransaction(c, read, row);
        OverallGrows(c, ss, s.value, key);
      } else {
        assert ss + [] == ss;
      }
      if l.Some? {
        assert l.value in TransactionsIn(c, read, rows);
        assert (ls + [l.value])[..|ls|] == ls;
        CurveStep(c, ls, l.value);
        CurveGrows(c, CurveBucketsOf(c, ls), l.value, labels, key);
      } else {
        assert ls + [] == ls;
      }
    }
  }

  lemma CurveStep(c: Config, ls: seq<Labelled>, l: Labelled)
    ensures
      var key, earlier := c.Key(l.sample.timestampMs), CurveBucketsOf(c, ls);
      CurveBucketsOf(c, ls + [l]) == earlier[(l.name, key) := AddToBucket(CurveBucketAt(earlier, l.name, key), l.sample)]
  {
    assert (ls + [l])[..|ls|] == ls;
  }

  lemma OverallGrows(c: Config, ss: seq<Sample>, s: Sample, key: int)
    ensures
      var before, after := BucketAt(BucketsOf(c, ss), key), BucketAt(BucketsOf(c, ss + [s]), key);
      var hit := c.Key(s.timestampMs) == key;
      && after.count == before.count + (if hit then 1 else 0)
      && after.fail == before.fail + (if hit && !s.success then 1 else 0)
  {
    OneSampleMore(c, ss, s, key);
  }

  lemma {:induction false} NoCurves(c: Config, labels: seq<string>, key: int)
    ensures CurveCount(map[], labels, key) == 0 && CurveFail(map[], labels, key) == 0
    ensures BucketAt(BucketsOf(c, []), key) == EMPTY_BUCKET && CurveBucketsOf(c, []) == map[]
  {
    if labels != [] {
      NoCurves(c, labels[..|labels| - 1], key);
    }
  }
}
