/** What a rotated log holds after any sequence of emits: every line in order but for whole expired
    files, each in a file of the right day and size. */
module LogHistory {
  import opened Options
  import opened LogRotation

  predicate Earlier(a: Name, b: Name) {
    a.Archive? && b.Archive? && (a.day < b.day || (a.day == b.day && a.number < b.number))
  }

  /** The archives in the order of their day and number. */
  ghost predicate InOrder(names: seq<Name>, files: Files) {
    && (forall i, j | 0 <= i < j < |names| :: Earlier(names[i], names[j]))
    && (forall i | 0 <= i < |names| :: names[i].Archive? && names[i] in files)
    && (forall n | n in files && n.Archive? :: n in names)
  }

  function Contents(names: seq<Name>, files: Files): seq<Record>
    requires forall n | n in names :: n in files
  {
    if names == [] then [] else Contents(names[..|names| - 1], files) + files[names[|names| - 1]]
  }

  /** A file that cleanup deleted: the day it was dated, and its records. */
  datatype Expired = Expired(day: Day, records: seq<Record>)

  function Lost(gone: seq<Expired>): seq<Record> {
    if gone == [] then [] else Lost(gone[..|gone| - 1]) + gone[|gone| - 1].records
  }

  /** Numbers of one day leave no gap. */
  ghost predicate NoGaps(files: Files) {
    forall d, n: nat, m: nat | Archive(d, n) in files && m < n :: Archive(d, m) in files
  }

  /** A file is over the limit only when it holds a single record. */
  ghost predicate SizesFit(files: Files, maxBytes: nat) {
    forall n | n in files :: Size(files[n]) <= maxBytes || |files[n]| == 1
  }

  ghost predicate NothingEmpty(files: Files) {
    && (forall n | n in files && n.Archive? :: files[n] != [])
    && (forall n | n in files :: forall r | r in files[n] :: r.size > 0)
  }

  ghost predicate FilesFit(files: Files, maxBytes: nat) {
    Active in files && NoGaps(files) && SizesFit(files, maxBytes) && NothingEmpty(files)
  }

  /** All lines emitted, in order, are the deleted files' and then the archives' and the active
      file's. */
  ghost predicate Tells(names: seq<Name>, files: Files, gone: seq<Expired>, emitted: seq<Record>) {
    && Active in files && (forall n | n in names :: n in files)
    && emitted == Lost(gone) + Contents(names, files) + files[Active]
  }

  predicate AllBefore(gone: seq<Expired>, cutoff: Day) { forall g | g in gone :: g.day < cutoff }

  predicate DatedBy(names: seq<Name>, day: Day) { forall n | n in names :: n.Archive? && n.day <= day }

  /** The names in order, the files deleted so far, the lines emitted, and the latest reading of
      the clock. */
  ghost predicate Inv(log: Log, maxBytes: nat, backupDays: nat, names: seq<Name>, gone: seq<Expired>, emitted: seq<Record>,
                      clock: Day) {
    && FilesFit(log.files, maxBytes) && InOrder(names, log.files) && Tells(names, log.files, gone, emitted)
    && DatedBy(names, log.activeDay) && log.activeDay <= clock && AllBefore(gone, clock - backupDays)
  }

  // ----- cleanup --------------------------------------------------------------------------------------------------

  lemma {:induction false} ContentsFrame(names: seq<Name>, a: Files, b: Files)
    requires forall n | n in names :: n in a && n in b && a[n] == b[n]
    ensures Contents(names, a) == Contents(names, b)
  {
    if names != [] {
      ContentsFrame(names[..|names| - 1], a, b);
    }
  }

  lemma {:induction false} ContentsConcat(a: seq<Name>, b: seq<Name>, files: Files)
    requires forall n | n in a + b :: n in files
    ensures (forall n | n in a :: n in files) && (forall n | n in b :: n in files)
    ensures Contents(a + b, files) == Contents(a, files) + Contents(b, files)
  {
    assert (forall n | n in a :: n in a + b) && (forall n | n in b :: n in a + b);
    if b == [] {
      assert a + b == a;
    } else {
      assert (a + b)[..|a + b| - 1] == a + b[..|b| - 1];
      ContentsConcat(a, b[..|b| - 1], files);
    }
  }

  /** The files of a run of names, as deleted ones. */
  function AsGone(names: seq<Name>, files: Files): (gone: seq<Expired>)
    requires forall n | n in names :: n in files && n.Archive?
    ensures |gone| == |names|
    ensures forall i | 0 <= i < |names| :: gone[i].day == names[i].day
  {
    if names == [] then []
    else AsGone(names[..|names| - 1], files) + [Expired(names[|names| - 1].day, files[names[|names| - 1]])]
  }

  lemma LostGrows(gone: seq<Expired>, e: Expired)
    ensures Lost(gone + [e]) == Lost(gone) + e.records
  {
    assert (gone + [e])[..|gone|] == gone;
  }

  lemma {:induction false} LostOfGone(gone: seq<Expired>, names: seq<Name>, files: Files)
    requires forall n | n in names :: n in files && n.Archive?
    ensures Lost(gone + AsGone(names, files)) == Lost(gone) + Contents(names, files)
  {
    hide Lost;
    if names == [] {
      assert gone + AsGone(names, files) == gone;
    } else {
      var init, last := names[..|names| - 1], names[|names| - 1];
      LostOfGone(gone, init, files);
      var before, e := gone + AsGone(init, files), Expired(last.day, files[last]);
      LostGrows(before, e);
      assert gone + AsGone(names, files) == before + [e];
    }
  }

  /** How many names, from the front, cleanup deletes. */
  function Deleted(names: seq<Name>, cutoff: Day): (k: nat)
    ensures k <= |names|
  {
    if names == [] || Kept(names[0], cutoff) then 0 else 1 + Deleted(names[1..], cutoff)
  }

  lemma {:induction false} DeletedIsPrefix(names: seq<Name>, cutoff: Day)
    requires forall i, j | 0 <= i < j < |names| :: Earlier(names[i], names[j])
    ensures forall i | 0 <= i < |names| :: Kept(names[i], cutoff) <==> i >= Deleted(names, cutoff)
  {
    if names != [] {
      if Kept(names[0], cutoff) {
        forall i | 0 <= i < |names|
          ensures Kept(names[i], cutoff)
        {
          if i > 0 {
            assert Earlier(names[0], names[i]);
          }
        }
      } else {
        DeletedIsPrefix(names[1..], cutoff);
        forall i | 0 <= i < |names|
          ensures Kept(names[i], cutoff) <==> i >= Deleted(names, cutoff)
        {
          if i > 0 {
            assert names[i] == names[1..][i - 1];
          }
        }
      }
    }
  }

  lemma CleanedFits(log: Log, maxBytes: nat, backupDays: nat, today: Day)
    requires FilesFit(log.files, maxBytes)
    ensures FilesFit(Cleaned(log, backupDays, today).files, maxBytes)
  {}

  lemma CleanedFiles(log: Log, backupDays: nat, today: Day)
    ensures forall n | n in log.files :: n in Cleaned(log, backupDays, today).files <==> Kept(n, today - backupDays)
    ensures forall n | n in Cleaned(log, backupDays, today).files ::
      n in log.files && Cleaned(log, backupDays, today).files[n] == log.files[n]
  {}

  lemma RestInOrder(names: seq<Name>, k: nat)
    requires k <= |names| && forall i, j | 0 <= i < j < |names| :: Earlier(names[i], names[j])
    ensures forall i, j | 0 <= i < j < |names[k..]| :: Earlier(names[k..][i], names[k..][j])
  {
    hide Earlier;
    forall i, j | 0 <= i < j < |names[k..]|
      ensures Earlier(names[k..][i], names[k..][j])
    {
      assert Earlier(names[k + i], names[k + j]);
    }
  }

  lemma KeptIsRest(names: seq<Name>, cutoff: Day, n: Name)
    requires (forall i, j | 0 <= i < j < |names| :: Earlier(names[i], names[j])) && n in names
    ensures n in names[Deleted(names, cutoff)..] <==> Kept(n, cutoff)
  {
    DeletedIsPrefix(names, cutoff);
    hide Deleted, Earlier, Kept;
    var k := Deleted(names, cutoff);
    if n in names[k..] {
      var i :| 0 <= i < |names[k..]| && names[k..][i] == n;
      assert names[k + i] == n;
    }
    if Kept(n, cutoff) {
      var i :| 0 <= i < |names| && names[i] == n;
      assert names[k..][i - k] == n;
    }
  }

  lemma CleanedOrder(log: Log, backupDays: nat, names: seq<Name>, today: Day)
    requires InOrder(names, log.files)
    ensures InOrder(names[Deleted(names, today - backupDays)..], Cleaned(log, backupDays, today).files)
  {
    hide Deleted, Cleaned, Earlier, Kept;
    var k, files' := Deleted(names, today - backupDays), Cleaned(log, backupDays, today).files;
    CleanedFiles(log, backupDays, today);
    RestInOrder(names, k);
    forall n | n in names
      ensures n in names[k..] <==> n in files'
    {
      KeptIsRest(names, today - backupDays, n);
    }
    forall i | 0 <= i < |names[k..]|
      ensures names[k..][i].Archive? && names[k..][i] in files'
    {
      assert names[k + i] in names && names[k..][i] in names[k..];
    }
  }

  /** The files a were deleted, the files b were kept. */
  lemma MovedTells(a: seq<Name>, b: seq<Name>, files: Files, files': Files, gone: seq<Expired>, emitted: seq<Record>)
    requires Tells(a + b, files, gone, emitted) && (forall n | n in a :: n in files && n.Archive?)
    requires (forall n | n in b :: n in files && n in files' && files'[n] == files[n])
    requires Active in files' && files'[Active] == files[Active]
    ensures Tells(b, files', gone + AsGone(a, files), emitted)
  {
    hide Contents, Lost, AsGone;
    LostOfGone(gone, a, files);
    ContentsConcat(a, b, files);
    ContentsFrame(b, files, files');
  }

  lemma CleanedTells(log: Log, backupDays: nat, names: seq<Name>, gone: seq<Expired>, emitted: seq<Record>, today: Day)
    returns (gone': seq<Expired>)
    requires InOrder(names, log.files) && Tells(names, log.files, gone, emitted)
    requires AllBefore(gone, today - backupDays)
    ensures Tells(names[Deleted(names, today - backupDays)..], Cleaned(log, backupDays, today).files, gone', emitted)
    ensures gone <= gone' && AllBefore(gone', today - backupDays)
  {
    hide Deleted, Cleaned, InOrder, Tells, AllBefore, AsGone, Kept;
    var k := Deleted(names, today - backupDays);
    CleanedOrder(log, backupDays, names, today);
    CleanedFiles(log, backupDays, today);
    ArchivesOnly(names, log.files);
    ArchivesOnly(names[k..], Cleaned(log, backupDays, today).files);
    TellsActive(names, log.files, gone, emitted);
    assert names[..k] + names[k..] == names;
    MovedTells(names[..k], names[k..], log.files, Cleaned(log, backupDays, today).files, gone, emitted);
    gone' := gone + AsGone(names[..k], log.files);
    DeletedBefore(log, names, today - backupDays);
    GoneBefore(names[..k], log.files, today - backupDays);
    BothBefore(gone, AsGone(names[..k], log.files), today - backupDays);
  }

  lemma TellsActive(names: seq<Name>, files: Files, gone: seq<Expired>, emitted: seq<Record>)
    requires Tells(names, files, gone, emitted)
    ensures Active in files
  {}

  lemma BothBefore(gone: seq<Expired>, more: seq<Expired>, cutoff: Day)
    requires AllBefore(gone, cutoff) && AllBefore(more, cutoff)
    ensures AllBefore(gone + more, cutoff)
  {}

  lemma DeletedBefore(log: Log, names: seq<Name>, cutoff: Day)
    requires InOrder(names, log.files)
    ensures forall i | 0 <= i < Deleted(names, cutoff) :: !Kept(names[..Deleted(names, cutoff)][i], cutoff)
  {
    DeletedIsPrefix(names, cutoff);
  }

  lemma ArchivesOnly(names: seq<Name>, files: Files)
    requires InOrder(names, files)
    ensures forall n | n in names :: n in files && n.Archive?
  {}

  lemma GoneBefore(names: seq<Name>, files: Files, cutoff: Day)
    requires forall n | n in names :: n in files && n.Archive?
    requires forall i | 0 <= i < |names| :: !Kept(names[i], cutoff)
    ensures AllBefore(AsGone(names, files), cutoff)
  {
    var gone := AsGone(names, files);
    forall g | g in gone
      ensures g.day < cutoff
    {
      var i :| 0 <= i < |gone| && gone[i] == g;
      assert !Kept(names[i], cutoff);
    }
  }

  /** Cleanup deletes whole expired files, from the front of the order. */
  lemma CleanedInv(log: Log, maxBytes: nat, backupDays: nat, names: seq<Name>, gone: seq<Expired>, emitted: seq<Record>,
                   clock: Day, today: Day)
    returns (names': seq<Name>, gone': seq<Expired>)
    requires Inv(log, maxBytes, backupDays, names, gone, emitted, clock) && clock <= today
    ensures Inv(Cleaned(log, backupDays, today), maxBytes, backupDays, names', gone', emitted, today)
    ensures gone <= gone'
  {
    hide FilesFit, InOrder, Tells, Deleted;
    CleanedFits(log, maxBytes, backupDays, today);
    CleanedOrder(log, backupDays, names, today);
    gone' := CleanedTells(log, backupDays, names, gone, emitted, today);
    names' := names[Deleted(names, today - backupDays)..];
  }

  // ----- rollover -------------------------------------------------------------------------------------------------

  lemma RenamedFits(log: Log, maxBytes: nat)
    requires FilesFit(log.files, maxBytes) && log.files[Active] != []
    ensures FilesFit(Renamed(log).files, maxBytes)
  {}

  /** Numbers in use are below the first free one. */
  lemma UsedIsSmaller(files: Files, day: Day, n: nat)
    requires Archive(day, n) in files && NoGaps(files)
    ensures n < FreeNumber(files, day, 0)
  {
    hide FreeNumber;
  }

  lemma RenamedOrder(log: Log, names: seq<Name>)
    requires Active in log.files && InOrder(names, log.files) && DatedBy(names, log.activeDay) && NoGaps(log.files)
    ensures
      var target := Archive(log.activeDay, FreeNumber(log.files, log.activeDay, 0));
      InOrder(names + [target], Renamed(log).files) && DatedBy(names + [target], log.activeDay) && target !in log.files
  {
    hide FreeNumber, NoGaps;
    var target := Archive(log.activeDay, FreeNumber(log.files, log.activeDay, 0));
    forall i | 0 <= i < |names|
      ensures Earlier(names[i], target)
    {
      assert names[i] in names;
      if names[i].day == target.day {
        assert names[i] == Archive(target.day, names[i].number);
        UsedIsSmaller(log.files, target.day, names[i].number);
      }
    }
  }

  lemma RenamedTells(log: Log, names: seq<Name>, gone: seq<Expired>, emitted: seq<Record>)
    requires Tells(names, log.files, gone, emitted) && Active !in names
    ensures
      var target := Archive(log.activeDay, FreeNumber(log.files, log.activeDay, 0));
      Tells(names + [target], Renamed(log).files, gone, emitted)
  {
    hide FreeNumber;
    var target := Archive(log.activeDay, FreeNumber(log.files, log.activeDay, 0));
    var files' := Renamed(log).files;
    ContentsFrame(names, log.files, files');
    assert (names + [target])[..|names|] == names;
    assert files'[Active] == [] && files'[target] == log.files[Active];
  }

  lemma RenamedInv(log: Log, maxBytes: nat, backupDays: nat, names: seq<Name>, gone: seq<Expired>, emitted: seq<Record>,
                   clock: Day, today: Day)
    returns (names': seq<Name>)
    requires Inv(log, maxBytes, backupDays, names, gone, emitted, clock) && clock <= today && log.files[Active] != []
    ensures Inv(Renamed(log).(activeDay := today), maxBytes, backupDays, names', gone, emitted, today)
  {
    RenamedFits(log, maxBytes);
    RenamedOrder(log, names);
    ArchivesOnly(names, log.files);
    RenamedTells(log, names, gone, emitted);
    hide FilesFit, InOrder, Tells, FreeNumber, Renamed;
    names' := names + [Archive(log.activeDay, FreeNumber(log.files, log.activeDay, 0))];
    RenamedDay(log);
  }

  lemma RenamedDay(log: Log)
    requires Active in log.files
    ensures Renamed(log).activeDay == log.activeDay
  {}

  // ----- emit ---------------------------------------------------------------------------------------------------------

  lemma {:induction false} SizePositive(records: seq<Record>)
    requires forall r | r in records :: r.size > 0
    ensures Size(records) > 0 <==> records != []
  {
    if records != [] {
      SizePositive(records[..|records| - 1]);
    }
  }

  lemma LaterClock(log: Log, maxBytes: nat, backupDays: nat, names: seq<Name>, gone: seq<Expired>, emitted: seq<Record>,
                   clock: Day, today: Day)
    requires Inv(log, maxBytes, backupDays, names, gone, emitted, clock) && clock <= today
    ensures Inv(log, maxBytes, backupDays, names, gone, emitted, today)
  {}

  /** Ready for the line: the invariant holds and the line fits behind what the active file holds. */
  lemma ReadyInv(log: Log, maxBytes: nat, backupDays: nat, names: seq<Name>, gone: seq<Expired>, emitted: seq<Record>,
                 clock: Day, record: Record, today: Day)
    returns (names': seq<Name>, gone': seq<Expired>)
    requires Inv(log, maxBytes, backupDays, names, gone, emitted, clock) && clock <= today
    ensures Inv(Ready(log, maxBytes, backupDays, record, today), maxBytes, backupDays, names', gone', emitted, today)
    ensures gone <= gone'
    ensures
      var active := Ready(log, maxBytes, backupDays, record, today).files[Active];
      active == [] || (Size(active) + record.size <= maxBytes && Ready(log, maxBytes, backupDays, record, today).activeDay == today)
  {
    hide Cleaned, InOrder, Tells, Renamed, DatedBy;
    names', gone' := names, gone;
    if log.cleanupDay != Some(today) {
      names', gone' := CleanedInv(log, maxBytes, backupDays, names, gone, emitted, clock, today);
    } else {
      LaterClock(log, maxBytes, backupDays, names, gone, emitted, clock, today);
    }
    var prepared := Prepared(log, backupDays, today);
    SizePositive(prepared.files[Active]);
    if MustRoll(prepared, maxBytes, record, today) {
      names' := RenamedInv(prepared, maxBytes, backupDays, names', gone', emitted, today, today);
      names', gone' := CleanedInv(Renamed(prepared).(activeDay := today), maxBytes, backupDays, names', gone', emitted, today, today);
    }
  }

  /** Appending the line keeps everything in place. */
  lemma AppendedInv(log: Log, maxBytes: nat, backupDays: nat, names: seq<Name>, gone: seq<Expired>, emitted: seq<Record>,
                    clock: Day, record: Record, today: Day)
    requires Inv(log, maxBytes, backupDays, names, gone, emitted, clock) && clock <= today && record.size > 0
    requires log.files[Active] == [] || Size(log.files[Active]) + record.size <= maxBytes
    ensures Inv(log.(files := log.files[Active := log.files[Active] + [record]], activeDay := today),
                maxBytes, backupDays, names, gone, emitted + [record], today)
  {
    var active, files' := log.files[Active], log.files[Active := log.files[Active] + [record]];
    assert (active + [record])[..|active|] == active;
    ContentsFrame(names, log.files, files');
    assert FilesFit(files', maxBytes) && InOrder(names, files');
    assert emitted + [record] == Lost(gone) + Contents(names, files') + files'[Active];
  }

  // ----- runs -----------------------------------------------------------------------------------------------------------

  /** A line emitted, with the clock read before and after; or a cleanup of its own. */
  datatype Op = Emit(record: Record, before: Day, after: Day) | Clean(today: Day)

  function Step(log: Log, maxBytes: nat, backupDays: nat, op: Op): (next: Log)
    requires Active in log.files
    ensures Active in next.files
  {
    match op
    case Emit(record, before, after) => Emitted(log, maxBytes, backupDays, record, before, after)
    case Clean(today) => Cleaned(log, backupDays, today)
  }

  /** The handler after a run that starts without log files. */
  function Run(maxBytes: nat, backupDays: nat, start: Day, ops: seq<Op>): (log: Log)
    ensures Active in log.files
  {
    if ops == [] then Log(map[Active := []], start, Some(start))
    else Step(Run(maxBytes, backupDays, start, ops[..|ops| - 1]), maxBytes, backupDays, ops[|ops| - 1])
  }

  function Lines(ops: seq<Op>): seq<Record> {
    if ops == [] then []
    else Lines(ops[..|ops| - 1]) + (if ops[|ops| - 1].Emit? then [ops[|ops| - 1].record] else [])
  }

  function Clock(start: Day, ops: seq<Op>): Day {
    if ops == [] then start else match ops[|ops| - 1] case Emit(_, _, after) => after case Clean(today) => today
  }

  /** The clock never goes back, and no line is empty: each ends with a terminator. */
  predicate ClockRuns(start: Day, ops: seq<Op>) {
    ops == [] ||
    (ClockRuns(start, ops[..|ops| - 1]) &&
     match ops[|ops| - 1]
     case Emit(record, before, after) => Clock(start, ops[..|ops| - 1]) <= before <= after && record.size > 0
     case Clean(today) => Clock(start, ops[..|ops| - 1]) <= today)
  }

  /** After any run the archives in the order of their day and number, then the active file, hold
      every line emitted, in order, but for whole files that had expired; no name was reused, the
      numbers of a day leave no gap, and a file is over the limit only with a single line. */
  lemma {:induction false} RunTells(maxBytes: nat, backupDays: nat, start: Day, ops: seq<Op>)
    returns (names: seq<Name>, gone: seq<Expired>)
    requires ClockRuns(start, ops)
    ensures Inv(Run(maxBytes, backupDays, start, ops), maxBytes, backupDays, names, gone, Lines(ops), Clock(start, ops))
  {
    if ops == [] {
      names, gone := [], [];
    } else {
      var earlier, op := ops[..|ops| - 1], ops[|ops| - 1];
      names, gone := RunTells(maxBytes, backupDays, start, earlier);
      hide Inv, Ready, Cleaned;
      var log, clock := Run(maxBytes, backupDays, start, earlier), Clock(start, earlier);
      match op
      case Emit(record, before, after) =>
        names, gone := ReadyInv(log, maxBytes, backupDays, names, gone, Lines(earlier), clock, record, before);
        AppendedInv(Ready(log, maxBytes, backupDays, record, before), maxBytes, backupDays, names, gone, Lines(earlier),
                    before, record, after);
      case Clean(today) =>
        names, gone := CleanedInv(log, maxBytes, backupDays, names, gone, Lines(earlier), clock, today);
        assert Lines(ops) == Lines(earlier) + [];
    }
  }

  // ----- days -------------------------------------------------------------------------------------------------------------

  predicate AllOf(records: seq<Record>, day: Day) { forall r | r in records :: r.day == day }

  /** Each archive holds lines of its own day only, and the active file lines of the active day. */
  ghost predicate DayPure(log: Log) {
    && Active in log.files
    && (forall n | n in log.files && n.Archive? :: AllOf(log.files[n], n.day))
    && AllOf(log.files[Active], log.activeDay)
  }

  lemma ReadyIsPure(log: Log, maxBytes: nat, backupDays: nat, record: Record, today: Day)
    requires DayPure(log)
    ensures DayPure(Ready(log, maxBytes, backupDays, record, today))
  {
    hide FreeNumber, AllOf;
    assert AllOf([], today) by {
      NoneOf(today);
    }
  }

  lemma NoneOf(day: Day)
    ensures AllOf([], day)
  {}

  /** A line written on the day of the reading after it, into a file of its own or between two
      readings that agree. */
  predicate WritesPurely(log: Log, maxBytes: nat, backupDays: nat, op: Op)
    requires Active in log.files
  {
    op.Emit? ==>
      op.record.day == op.after &&
      (Ready(log, maxBytes, backupDays, op.record, op.before).files[Active] == [] || op.before == op.after)
  }

  /** A line keeps the files pure exactly when it is written so. */
  lemma PureExactly(log: Log, maxBytes: nat, backupDays: nat, record: Record, before: Day, after: Day)
    requires DayPure(log) && forall r | r in log.files[Active] :: r.size > 0
    ensures DayPure(Emitted(log, maxBytes, backupDays, record, before, after)) <==>
      WritesPurely(log, maxBytes, backupDays, Emit(record, before, after))
  {
    ReadyIsPure(log, maxBytes, backupDays, record, before);
    SizePositive(log.files[Active]);
    var ready := Ready(log, maxBytes, backupDays, record, before);
    ReadyDay(log, maxBytes, backupDays, record, before);
    hide Ready;
    var active, out := ready.files[Active], Emitted(log, maxBytes, backupDays, record, before, after);
    assert out.files[Active] == active + [record];
    AllOfAppended(active, record, after);
    if active != [] {
      assert active[0] in active && active[0].day == before;
    }
  }

  lemma AllOfAppended(records: seq<Record>, r: Record, day: Day)
    ensures AllOf(records + [r], day) <==> AllOf(records, day) && r.day == day
  {
    assert r in records + [r];
    assert forall x | x in records :: x in records + [r];
  }

  lemma ReadyDay(log: Log, maxBytes: nat, backupDays: nat, record: Record, today: Day)
    requires Active in log.files && (Size(log.files[Active]) > 0 <==> log.files[Active] != [])
    ensures
      var ready := Ready(log, maxBytes, backupDays, record, today);
      ready.files[Active] == [] || ready.activeDay == today
  {}

  lemma CleanedIsPure(log: Log, backupDays: nat, today: Day)
    requires DayPure(log)
    ensures DayPure(Cleaned(log, backupDays, today))
  {
    hide AllOf;
  }

  /** Every state of the run has pure files. */
  ghost predicate AlwaysPure(maxBytes: nat, backupDays: nat, start: Day, ops: seq<Op>) {
    forall k | 0 <= k <= |ops| :: DayPure(Run(maxBytes, backupDays, start, ops[..k]))
  }

  ghost predicate AllWritePurely(maxBytes: nat, backupDays: nat, start: Day, ops: seq<Op>) {
    forall k | 0 <= k < |ops| :: WritesPurely(Run(maxBytes, backupDays, start, ops[..k]), maxBytes, backupDays, ops[k])
  }

  lemma NothingEmptyInRun(maxBytes: nat, backupDays: nat, start: Day, ops: seq<Op>)
    requires ClockRuns(start, ops)
    ensures forall r | r in Run(maxBytes, backupDays, start, ops).files[Active] :: r.size > 0
  {
    hide Run, InOrder, Tells, NoGaps, SizesFit, ClockRuns, Lines, Clock;
    var names, gone := RunTells(maxBytes, backupDays, start, ops);
  }

  lemma StepIsPure(log: Log, maxBytes: nat, backupDays: nat, op: Op)
    requires DayPure(log) && forall r | r in log.files[Active] :: r.size > 0
    ensures DayPure(Step(log, maxBytes, backupDays, op)) <==> WritesPurely(log, maxBytes, backupDays, op)
  {
    hide AllOf, Emitted, Cleaned, WritesPurely;
    match op
    case Emit(record, before, after) => PureExactly(log, maxBytes, backupDays, record, before, after);
    case Clean(today) => CleanedIsPure(log, backupDays, today); CleansPurely(log, maxBytes, backupDays, op);
  }

  lemma CleansPurely(log: Log, maxBytes: nat, backupDays: nat, op: Op)
    requires Active in log.files && op.Clean?
    ensures WritesPurely(log, maxBytes, backupDays, op)
  {}

  lemma EmptyLogIsPure(maxBytes: nat, backupDays: nat, start: Day, ops: seq<Op>)
    requires ops == []
    ensures DayPure(Run(maxBytes, backupDays, start, ops))
  {}

  lemma Extended(maxBytes: nat, backupDays: nat, start: Day, earlier: seq<Op>, op: Op)
    ensures AlwaysPure(maxBytes, backupDays, start, earlier + [op]) <==>
      AlwaysPure(maxBytes, backupDays, start, earlier) && DayPure(Run(maxBytes, backupDays, start, earlier + [op]))
    ensures AllWritePurely(maxBytes, backupDays, start, earlier + [op]) <==>
      AllWritePurely(maxBytes, backupDays, start, earlier) &&
      WritesPurely(Run(maxBytes, backupDays, start, earlier), maxBytes, backupDays, op)
  {
    hide DayPure, WritesPurely, Run;
    var ops, n := earlier + [op], |earlier|;
    assert forall k | 0 <= k <= n :: ops[..k] == earlier[..k];
    assert ops[..n + 1] == ops && ops[..n] == earlier == earlier[..n];
    assert forall k | 0 <= k < n :: ops[k] == earlier[k];
    assert forall k | 0 <= k <= n + 1 :: k <= n || ops[..k] == ops;
    assert ops[n] == op;
    if AlwaysPure(maxBytes, backupDays, start, ops) {
      forall k | 0 <= k <= n
        ensures DayPure(Run(maxBytes, backupDays, start, earlier[..k]))
      {
        assert DayPure(Run(maxBytes, backupDays, start, ops[..k]));
      }
      assert DayPure(Run(maxBytes, backupDays, start, ops[..n + 1]));
    }
    if AllWritePurely(maxBytes, backupDays, start, ops) {
      forall k | 0 <= k < n
        ensures WritesPurely(Run(maxBytes, backupDays, start, earlier[..k]), maxBytes, backupDays, earlier[k])
      {
        assert WritesPurely(Run(maxBytes, backupDays, start, ops[..k]), maxBytes, backupDays, ops[k]);
      }
    }
  }

  /** In every state of a run each file holds lines of its own day only, if and only if every line
      is of the day of the reading after it and that reading agrees with the one before, or the
      line is the first in its file. */
  lemma {:induction false} RunIsPureExactly(maxBytes: nat, backupDays: nat, start: Day, ops: seq<Op>)
    requires ClockRuns(start, ops)
    ensures AlwaysPure(maxBytes, backupDays, start, ops) <==> AllWritePurely(maxBytes, backupDays, start, ops)
  {
    hide DayPure, WritesPurely, Step, AlwaysPure, AllWritePurely;
    if ops == [] {
      RunOfNothingIsPure(maxBytes, backupDays, start, ops);
    } else {
      var earlier, op := ops[..|ops| - 1], ops[|ops| - 1];
      assert ops == earlier + [op];
      RunIsPureExactly(maxBytes, backupDays, start, earlier);
      Extended(maxBytes, backupDays, start, earlier, op);
      if AlwaysPure(maxBytes, backupDays, start, earlier) {
        LastIsPure(maxBytes, backupDays, start, earlier);
        NothingEmptyInRun(maxBytes, backupDays, start, earlier);
        StepIsPure(Run(maxBytes, backupDays, start, earlier), maxBytes, backupDays, op);
      }
    }
  }

  lemma RunOfNothingIsPure(maxBytes: nat, backupDays: nat, start: Day, ops: seq<Op>)
    requires ops == []
    ensures AlwaysPure(maxBytes, backupDays, start, ops) && AllWritePurely(maxBytes, backupDays, start, ops)
  {
    hide DayPure, Run;
    EmptyLogIsPure(maxBytes, backupDays, start, ops);
    assert ops[..0] == ops;
  }

  lemma LastIsPure(maxBytes: nat, backupDays: nat, start: Day, ops: seq<Op>)
    ensures AlwaysPure(maxBytes, backupDays, start, ops) ==> DayPure(Run(maxBytes, backupDays, start, ops))
  {
    hide DayPure, Run;
    assert ops[..|ops|] == ops;
  }

  /** So it is when the clock shows each line's own day before and after it is written. */
  lemma SameDayRunIsPure(maxBytes: nat, backupDays: nat, start: Day, ops: seq<Op>)
    requires ClockRuns(start, ops)
    requires forall op | op in ops && op.Emit? :: op.record.day == op.before == op.after
    ensures DayPure(Run(maxBytes, backupDays, start, ops))
  {
    hide DayPure, Run, ClockRuns, AlwaysPure;
    RunIsPureExactly(maxBytes, backupDays, start, ops);
    LastIsPure(maxBytes, backupDays, start, ops);
  }

  /** An archive is never written again: one that mixes days does so until cleanup deletes it. */
  lemma ArchiveIsFrozen(log: Log, maxBytes: nat, backupDays: nat, op: Op, n: Name)
    requires Active in log.files && n.Archive? && n in log.files && n in Step(log, maxBytes, backupDays, op).files
    ensures Step(log, maxBytes, backupDays, op).files[n] == log.files[n]
    ensures !AllOf(log.files[n], n.day) ==> !DayPure(Step(log, maxBytes, backupDays, op))
  {
    hide FreeNumber, AllOf;
  }

  /** A line whose writing straddles midnight: read before it, the clock said the day the file was
      of; read after it, the next. The file then passes for one of the next day. */
  lemma MidnightMixesDays(maxBytes: nat, backupDays: nat, day: Day, first: Record, second: Record)
    requires first.day == day && second.day == day && first.size > 0 && second.size > 0
    requires first.size + second.size <= maxBytes
    ensures
      var one := Run(maxBytes, backupDays, day, [Emit(first, day, day)]);
      DayPure(one) && !DayPure(Emitted(one, maxBytes, backupDays, second, day, day + 1))
  {
    var ops := [Emit(first, day, day)];
    assert ops[..0] == [];
    var none := Run(maxBytes, backupDays, day, []);
    NoneOf(day);
    PureExactly(none, maxBytes, backupDays, first, day, day);
    var one := Run(maxBytes, backupDays, day, ops);
    assert one == Emitted(none, maxBytes, backupDays, first, day, day);
    PureExactly(one, maxBytes, backupDays, second, day, day + 1);
  }

  // ----- when a file ends, and when an archive goes ---------------------------------------------------------------------

  /** A line goes behind the lines of the active file, unless these are of another day than the
      clock's or the line does not fit; then they move to an archive of their day, under a name that
      was free, and the line starts the file. */
  lemma RollsExactly(log: Log, maxBytes: nat, backupDays: nat, record: Record, before: Day, after: Day)
    requires Active in log.files && forall r | r in log.files[Active] :: r.size > 0
    ensures
      var lines, out := log.files[Active], Emitted(log, maxBytes, backupDays, record, before, after);
      && out.activeDay == after && Active in out.files
      && if lines != [] && (log.activeDay != before || Size(lines) + record.size > maxBytes) then
           && out.files[Active] == [record]
           && (log.activeDay >= before - backupDays ==>
                 exists n :: Archive(log.activeDay, n) !in Prepared(log, backupDays, before).files
                   && Archive(log.activeDay, n) in out.files && out.files[Archive(log.activeDay, n)] == lines)
         else out.files[Active] == lines + [record]
  {
    hide FreeNumber;
    SizePositive(log.files[Active]);
    var prepared := Prepared(log, backupDays, before);
    if MustRoll(prepared, maxBytes, record, before) && log.activeDay >= before - backupDays {
      var n := FreeNumber(prepared.files, prepared.activeDay, 0);
      assert Archive(log.activeDay, n) in Emitted(log, maxBytes, backupDays, record, before, after).files;
    }
  }

  /** The last day the handler cleaned up on: it does before any line of a new day. */
  function CleanedOn(start: Day, ops: seq<Op>): Day {
    if ops == [] then start else match ops[|ops| - 1] case Emit(_, before, _) => before case Clean(today) => today
  }

  /** In every state no archive is older than the retention before the last reading for a line or a
      cleanup; and no younger one goes: see the deleted files of `RunTells`. */
  lemma {:induction false} NothingOverdue(maxBytes: nat, backupDays: nat, start: Day, ops: seq<Op>)
    ensures
      var log, day := Run(maxBytes, backupDays, start, ops), CleanedOn(start, ops);
      log.cleanupDay == Some(day) && forall n | n in log.files && n.Archive? :: n.day >= day - backupDays
  {
    if ops != [] {
      hide FreeNumber, MustRoll;
      NothingOverdue(maxBytes, backupDays, start, ops[..|ops| - 1]);
    }
  }
}
