/** What each commit changes and, above all, what it leaves alone. */
module CommitFacts {
  import opened Options
  import opened ExecutionTables

  /** Entries may only end; none is added, rebound or revived. */
  ghost predicate Closing(a: map<Id, Entry>, b: map<Id, Entry>) {
    && a.Keys == b.Keys
    && forall q | q in a :: b[q] == a[q] || b[q] == a[q].(status := QSuccess) || b[q] == a[q].(status := QFailed)
  }

  /** Leases may only end. */
  ghost predicate Freeing(a: map<Id, Lease>, b: map<Id, Lease>) {
    && a.Keys == b.Keys
    && forall l | l in a :: b[l] == a[l] || (a[l].status.Leased? && b[l] == a[l].(status := b[l].status) && !b[l].status.Leased?)
  }

  /** Reports may only end, and only report r. */
  ghost predicate OnlyReport(a: map<Id, Report>, b: map<Id, Report>, r: Id) {
    && a.Keys == b.Keys
    && forall x | x in a :: (x != r ==> b[x] == a[x]) && b[x].testcase == a[x].testcase && b[x].region == a[x].region
  }

  ghost predicate OthersKept(a: map<Id, Entry>, b: map<Id, Entry>, r: Id) {
    forall q | q in a && q in b && a[q].reportId != r :: b[q] == a[q]
  }

  ghost predicate NoneRunningFor(queue: map<Id, Entry>, r: Id) {
    forall q | q in queue && queue[q].reportId == r :: !IsActive(queue[q].status)
  }

  predicate IsFinal(status: CaseStatus) { status.RunSuccess? || status.RunFailed? }

  lemma ClosingRefl(queue: map<Id, Entry>)
    ensures Closing(queue, queue) && forall r :: OthersKept(queue, queue, r)
  {}

  lemma CloseEntryFacts(db: Db, report: Id, status: QueueStatus, liveOnly: bool)
    requires status.QSuccess? || status.QFailed?
    ensures
      var d := CloseEntry(db, report, status, liveOnly);
      && Closing(db.queue, d.queue)
      && d == db.(queue := d.queue)
      && (!liveOnly ==> NoneRunningFor(d.queue, report))
      && OthersKept(db.queue, d.queue, report)
      && forall q | q in d.queue && d.queue[q].reportId == report :: !d.queue[q].status.QRunning?
  {}

  lemma ReleasedFacts(db: Db, report: Id)
    ensures
      var d := ReleasedBy(db, report);
      && Freeing(db.leases, d.leases)
      && d == db.(leases := d.leases)
      && forall l | l in d.leases && d.leases[l].reportId == report :: !d.leases[l].status.Leased?
  {}

  lemma CalledBackFacts(db: Db, testcase: Id, report: Id, final: CaseStatus)
    requires IsFinal(final)
    ensures
      var d := CalledBackWith(db, testcase, report, final);
      && Closing(db.queue, d.queue) && OthersKept(db.queue, d.queue, report) && OnlyReport(db.reports, d.reports, report)
      && d.leases == db.leases && d.runs == db.runs
      && (if report !in db.reports || !db.reports[report].status.RunIng?
          then d.queue == db.queue && d.reports == db.reports
          else
            && d.reports[report].status == final
            && forall q | q in d.queue && d.queue[q].reportId == report :: !d.queue[q].status.QRunning?)
  {
    hide CloseEntry;
    if report in db.reports && db.reports[report].status.RunIng? {
      CloseEntryFacts(SetReport(SetCase(db, testcase, final), report, final), report, ClosedStatus(final), true);
    }
  }

  lemma StartFailedFacts(db: Db, testcase: Id, report: Id, queued: bool)
    ensures
      var d := StartFailed(db, testcase, report, queued);
      && Closing(db.queue, d.queue) && OthersKept(db.queue, d.queue, report) && OnlyReport(db.reports, d.reports, report)
      && d.leases == db.leases && d.runs == db.runs
      && (report in db.reports ==> d.reports[report].status.RunFailed?)
      && (if queued then NoneRunningFor(d.queue, report) else d.queue == db.queue)
  {
    hide CloseEntry, NoneRunningFor, Closing, OthersKept;
    var cased := SetCase(db, testcase, RunFailed);
    FailReportFacts(cased, report, StartRefused);
    var failed := FailReport(cased, report, StartRefused);
    ClosingRefl(db.queue);
    CloseEntryFacts(failed, report, QFailed, false);
  }

  lemma FailReportFacts(db: Db, report: Id, reason: Reason)
    ensures
      var d := FailReport(db, report, reason);
      && d == db.(reports := d.reports) && OnlyReport(db.reports, d.reports, report)
      && (report in db.reports ==> d.reports[report].status.RunFailed? && d.reports[report].reason == reason)
  {}

  lemma UserStoppedFacts(db: Db, report: Id)
    requires report in db.reports
    ensures
      var d := UserStopped(db, report);
      && Closing(db.queue, d.queue) && OthersKept(db.queue, d.queue, report) && OnlyReport(db.reports, d.reports, report)
      && d.leases == db.leases && d.runs == db.runs
      && d.reports[report].status.RunFailed?
      && NoneRunningFor(d.queue, report)
  {
    hide CloseEntry;
    CloseEntryFacts(FailReport(SetCase(db, db.reports[report].testcase, RunFailed), report, StoppedByUser),
                    report, QFailed, false);
  }

  lemma TimedOutFacts(db: Db, report: Id)
    requires report in db.reports
    ensures
      var d := ScanTimedOut(db, report);
      && d.queue == db.queue && OnlyReport(db.reports, d.reports, report)
      && d.runs == db.runs && Freeing(db.leases, d.leases)
      && d.reports[report].status.RunFailed? && d.reports[report].reason.TimedOut?
  {
    hide ReleasedBy;
    ReleasedFacts(FailReport(SetCase(db, db.reports[report].testcase, RunFailed), report, TimedOut), report);
  }

  lemma RecoveredFacts(db: Db)
    ensures
      var d := Recovered(db);
      && Quiet(d) && Closing(db.queue, d.queue) && Freeing(db.leases, d.leases)
      && d.reports.Keys == db.reports.Keys
      && forall r | r in db.reports ::
           d.reports[r] == if db.reports[r].status.RunIng?
                           then db.reports[r].(status := RunFailed, reason := Restarted) else db.reports[r]
  {}
}
