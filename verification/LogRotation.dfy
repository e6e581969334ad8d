/** Daily and size-bound log rotation over a file system of the log's own files. */
module LogRotation {
  import opened Options
  import opened Sets

  type Day = int

  /** A written line: its bytes, and the day it was written on. */
  datatype Record = Record(size: nat, day: Day)

  /** The log file, and its archives `<file>.<day>` (number 0) and `<file>.<day>.<number>`. */
  datatype Name = Active | Archive(day: Day, number: nat)

  type Files = map<Name, seq<Record>>

  /** The handler over its directory. */
  datatype Log = Log(files: Files, activeDay: Day, cleanupDay: Option<Day>)

  function Size(records: seq<Record>): nat {
    if records == [] then 0 else Size(records[..|records| - 1]) + records[|records| - 1].size
  }

  // ----- the name search ---------------------------------------------------------------------------------------

  function Taken(files: Files, day: Day, number: nat): set<Name> {
    set n | n in files.Keys && n.Archive? && n.day == day && n.number >= number
  }

  lemma TakenShrinks(files: Files, day: Day, number: nat)
    requires Archive(day, number) in files
    ensures |Taken(files, day, number + 1)| < |Taken(files, day, number)|
  {
    var more, fewer := Taken(files, day, number), Taken(files, day, number + 1);
    assert fewer <= more - {Archive(day, number)};
    Subset(fewer, more - {Archive(day, number)});
  }

  lemma {:induction false} Subset<T>(a: set<T>, b: set<T>)
    requires a <= b
    ensures |a| <= |b|
  {
    if a != {} {
      var x := Member(a);
      Subset(a - {x}, b - {x});
    }
  }

  /** The first free number, from the given one on: the search ends because the files are finitely
      many. */
  function FreeNumber(files: Files, day: Day, number: nat): (n: nat)
    ensures Archive(day, n) !in files && n >= number
    ensures forall k | number <= k < n :: Archive(day, k) in files
    decreases |Taken(files, day, number)|
  {
    if Archive(day, number) !in files then number
    else
      TakenShrinks(files, day, number);
      FreeNumber(files, day, number + 1)
  }

  // ----- the handler's steps -------------------------------------------------------------------------------------

  predicate Kept(n: Name, cutoff: Day) { n.Archive? ==> n.day >= cutoff }

  /** `cleanup`. */
  function Cleaned(log: Log, backupDays: nat, today: Day): (cleaned: Log)
    ensures Active in log.files ==> Active in cleaned.files && cleaned.files[Active] == log.files[Active]
  {
    log.(files := map n | n in log.files && Kept(n, today - backupDays) :: log.files[n], cleanupDay := Some(today))
  }

  /** `shouldRollover` first cleans up on a new day. */
  function Prepared(log: Log, backupDays: nat, today: Day): (prepared: Log)
    ensures Active in log.files ==> Active in prepared.files && prepared.files[Active] == log.files[Active]
  {
    if log.cleanupDay != Some(today) then Cleaned(log, backupDays, today) else log
  }

  predicate MustRoll(log: Log, maxBytes: nat, record: Record, today: Day)
    requires Active in log.files
  {
    var size := Size(log.files[Active]);
    size > 0 && (log.activeDay != today || size + record.size > maxBytes)
  }

  /** The rename in `doRollover`. */
  function Renamed(log: Log): (renamed: Log)
    requires Active in log.files
    ensures Active in renamed.files && renamed.files[Active] == []
  {
    var target := Archive(log.activeDay, FreeNumber(log.files, log.activeDay, 0));
    log.(files := log.files[target := log.files[Active]][Active := []])
  }

  /** `doRollover`. */
  function Rolled(log: Log, backupDays: nat, today: Day): Log
    requires Active in log.files
  {
    Cleaned(Renamed(log).(activeDay := today), backupDays, today)
  }

  function Ready(log: Log, maxBytes: nat, backupDays: nat, record: Record, today: Day): Log
    requires Active in log.files
  {
    var prepared := Prepared(log, backupDays, today);
    if MustRoll(prepared, maxBytes, record, today) then Rolled(prepared, backupDays, today) else prepared
  }

  /** `emit`, with the clock read before the line is written and again afterwards. */
  function Emitted(log: Log, maxBytes: nat, backupDays: nat, record: Record, before: Day, after: Day): Log
    requires Active in log.files
  {
    var ready := Ready(log, maxBytes, backupDays, record, before);
    ready.(files := ready.files[Active := ready.files[Active] + [record]], activeDay := after)
  }

  // ----- the handler in place --------------------------------------------------------------------------------------

  class DailySizeHandler {
    const maxBytes: nat
    const backupDays: nat
    var files: Files
    var activeDay: Day
    var cleanupDay: Option<Day>

    function View(): Log
      reads this
    {
      Log(files, activeDay, cleanupDay)
    }

    /** On a directory without log files. */
    constructor (maxBytes: nat, backupDays: nat, today: Day)
      requires maxBytes > 0 && backupDays >= 1
      ensures View() == Log(map[Active := []], today, Some(today))
      ensures this.maxBytes == maxBytes && this.backupDays == backupDays
    {
      this.maxBytes, this.backupDays := maxBytes, backupDays;
      files, activeDay, cleanupDay := map[Active := []], today, None;
      new;
      Cleanup(today);
    }

    /** `cleanup`: unlinks every archive dated before the retention. */
    method Cleanup(today: Day)
      modifies this
      ensures View() == Cleaned(old(View()), backupDays, today)
    {
      var cutoff := today - backupDays;
      var todo := set n | n in files.Keys && n.Archive? && n.day < cutoff;
      while todo != {}
        invariant activeDay == old(activeDay) && cleanupDay == old(cleanupDay)
        invariant todo <= files.Keys <= old(files).Keys
        invariant forall n | n in todo :: n.Archive? && n.day < cutoff
        invariant forall n | n in old(files) :: n in files <==> Kept(n, cutoff) || n in todo
        invariant forall n | n in files :: files[n] == old(files)[n]
        decreases |todo|
      {
        ghost var some := Member(todo);
        var n: Name :| n in todo;
        files := files - {n};
        todo := todo - {n};
      }
      cleanupDay := Some(today);
    }

    method ShouldRollover(record: Record, today: Day) returns (roll: bool)
      requires Active in files
      modifies this
      ensures View() == Prepared(old(View()), backupDays, today)
      ensures Active in files && roll == MustRoll(View(), maxBytes, record, today)
    {
      if cleanupDay != Some(today) {
        Cleanup(today);
      }
      var size := Size(files[Active]);
      roll := size > 0 && (activeDay != today || size + record.size > maxBytes);
    }

    /** `doRollover`: the archive takes the first free name of the active day. */
    method DoRollover(today: Day)
      requires Active in files
      modifies this
      ensures View() == Rolled(old(View()), backupDays, today)
    {
      var target, number := Archive(activeDay, 0), 0;
      while target in files
        invariant target == Archive(activeDay, number) && files == old(files) && activeDay == old(activeDay)
        invariant FreeNumber(files, activeDay, 0) == FreeNumber(files, activeDay, number)
        decreases |Taken(files, activeDay, number)|
      {
        TakenShrinks(files, activeDay, number);
        number := number + 1;
        target := Archive(activeDay, number);
      }
      files := files[target := files[Active]][Active := []];
      activeDay := today;
      Cleanup(today);
    }

    method Emit(record: Record, before: Day, after: Day)
      requires Active in files
      modifies this
      ensures View() == Emitted(old(View()), maxBytes, backupDays, record, before, after)
    {
      var roll := ShouldRollover(record, before);
      if roll {
        DoRollover(before);
      }
      files := files[Active := files[Active] + [record]];
      activeDay := after;
    }
  }

  lemma SizeOfMore(records: seq<Record>, r: Record)
    ensures Size([]) == 0 && Size(records + [r]) == Size(records) + r.size
  {
    assert (records + [r])[..|records|] == records;
  }
}
