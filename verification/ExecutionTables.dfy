/** The shared tables of an execution and the writes the services commit to them: testcases,
    reports, queue entries, run records and node leases. `Db` is the tables as a value, the
    functions on it say what one commit writes, and the class holds the tables the services
    update row by row, each method proved against its function. */
module ExecutionTables {
  import opened Options
  import opened Sets

  type Id = nat

  /** TestCaseStatus, shared by testcases and reports. */
  datatype CaseStatus = NotRun | RunIng | RunSuccess | RunFailed | RunWaiting | WaitCancel

  /** Why a report holds its status, as its response text records. */
  datatype Reason = Started | StartRefused | StoppedByUser | TimedOut | Restarted

  datatype Report = Report(testcase: Id, region: string, status: CaseStatus, reason: Reason)

  datatype QueueStatus = QPending | QRunning | QCanceling | QSuccess | QFailed | QCanceled

  predicate IsActive(status: QueueStatus) { status.QPending? || status.QRunning? || status.QCanceling? }

  /** `reportId` is 0 until a report is bound. */
  datatype Entry = Entry(testcase: Id, region: string, status: QueueStatus, reportId: Id)

  datatype RunStatus = RPreparing | RRunning | RStopping | RSuccess | RFailed | RLost

  predicate IsActiveRun(status: RunStatus) { status.RPreparing? || status.RRunning? || status.RStopping? }

  datatype LeaseStatus = Leased | Released | ReleaseFailed | Lost

  datatype Lease = Lease(reportId: Id, nodeId: Id, status: LeaseStatus)

  /** Run records are kept one per report, under the report's id. */
  datatype Db = Db(
    testcases: map<Id, CaseStatus>,
    reports: map<Id, Report>,
    queue: map<Id, Entry>,
    runs: map<Id, RunStatus>,
    leases: map<Id, Lease>)

  // ----- queries ---------------------------------------------------------------------------

  /** `get_active_by_testcase_region` finds an entry. */
  predicate HasActiveEntry(db: Db, testcase: Id, region: string) {
    exists q :: q in db.queue && db.queue[q].testcase == testcase && db.queue[q].region == region &&
                IsActive(db.queue[q].status)
  }

  /** `active_node_ids`. */
  function LeasedNodes(db: Db): set<Id> {
    set l | l in db.leases && db.leases[l].status.Leased? :: db.leases[l].nodeId
  }

  /** `get_running_by_testcase_region` finds a report. */
  predicate RunsInRegion(db: Db, testcase: Id, region: string) {
    exists r :: r in db.reports && db.reports[r].testcase == testcase && db.reports[r].region == region &&
                db.reports[r].status.RunIng?
  }

  predicate HasRunningReport(db: Db, testcase: Id) {
    exists r :: r in db.reports && db.reports[r].testcase == testcase && db.reports[r].status.RunIng?
  }

  // ----- single writes ---------------------------------------------------------------------

  function SetCase(db: Db, testcase: Id, status: CaseStatus): Db {
    if testcase in db.testcases then db.(testcases := db.testcases[testcase := status]) else db
  }

  function SetReport(db: Db, report: Id, status: CaseStatus): Db {
    if report in db.reports then db.(reports := db.reports[report := db.reports[report].(status := status)]) else db
  }

  function FailReport(db: Db, report: Id, reason: Reason): Db {
    if report in db.reports
    then db.(reports := db.reports[report := db.reports[report].(status := RunFailed, reason := reason)])
    else db
  }

  function SetRun(db: Db, report: Id, status: RunStatus): Db {
    if report in db.runs then db.(runs := db.runs[report := status]) else db
  }

  /** Rewrites the entry bound to a report; with `liveOnly` just a running or canceling one. */
  function CloseEntry(db: Db, report: Id, status: QueueStatus, liveOnly: bool): Db {
    db.(queue := map q | q in db.queue ::
      var e := db.queue[q];
      if e.reportId == report && (liveOnly ==> e.status.QRunning? || e.status.QCanceling?)
      then e.(status := status) else e)
  }

  function ClosedStatus(final: CaseStatus): QueueStatus { if final.RunSuccess? then QSuccess else QFailed }

  // ----- commits ---------------------------------------------------------------------------

  /** `enqueue_manual_execution` past its checks. */
  function Enqueued(db: Db, entry: Id, testcase: Id, region: string): Db {
    SetCase(db, testcase, RunWaiting).(queue := db.queue[entry := Entry(testcase, region, QPending, 0)])
  }

  /** `cancel_pending_execution` past its checks. */
  function Cancelled(db: Db, entry: Id): Db
    requires entry in db.queue
  {
    SetCase(db, db.queue[entry].testcase, WaitCancel)
      .(queue := db.queue[entry := db.queue[entry].(status := QCanceled)])
  }

  /** `_claim_execution_queue_for_start` past its check, whatever the row holds by then. */
  function ClaimedEntry(db: Db, entry: Id): Db
    requires entry in db.queue
  {
    db.(queue := db.queue[entry := db.queue[entry].(status := QRunning)])
  }

  /** `_bind_execution_queue_report` on a running entry. */
  function BoundEntry(db: Db, entry: Id, report: Id): Db
    requires entry in db.queue
  {
    db.(queue := db.queue[entry := db.queue[entry].(reportId := report)])
  }

  /** The lease rows of some of the grants. */
  function GrantRows(report: Id, grants: map<Id, Id>, ids: set<Id>): map<Id, Lease> {
    map l | l in grants && l in ids :: Lease(report, grants[l], Leased)
  }

  lemma NothingGranted(leases: map<Id, Lease>, report: Id, grants: map<Id, Id>)
    ensures leases == leases + GrantRows(report, grants, grants.Keys - grants.Keys)
  {}

  lemma RowGranted(leases: map<Id, Lease>, report: Id, grants: map<Id, Id>, ids: set<Id>, l: Id)
    requires l in grants
    ensures (leases + GrantRows(report, grants, ids))[l := Lease(report, grants[l], Leased)] ==
      leases + GrantRows(report, grants, ids + {l})
  {}

  /** Nothing asked for is leased, node by node. */
  lemma GrantsAreFree(db: Db, grants: map<Id, Id>)
    ensures grants.Values !! LeasedNodes(db) <==>
      forall l, g | l in db.leases && g in grants && db.leases[l].status.Leased? :: db.leases[l].nodeId != grants[g]
  {
    if grants.Values !! LeasedNodes(db) {
      forall l, g | l in db.leases && g in grants && db.leases[l].status.Leased?
        ensures db.leases[l].nodeId != grants[g]
      {
        assert db.leases[l].nodeId in LeasedNodes(db) && grants[g] in grants.Values;
      }
    } else {
      var n :| n in grants.Values && n in LeasedNodes(db);
      var g :| g in grants && grants[g] == n;
      var l :| l in db.leases && db.leases[l].status.Leased? && db.leases[l].nodeId == n;
      assert !(db.leases[l].nodeId != grants[g]);
    }
  }

  /** `lease_nodes` without conflicts; `grants` maps each new lease row to its node. */
  function Granted(db: Db, report: Id, grants: map<Id, Id>): Db {
    db.(leases := db.leases + GrantRows(report, grants, grants.Keys))
  }

  /** `release_by_report`. */
  function ReleasedBy(db: Db, report: Id): Db {
    db.(leases := map l | l in db.leases ::
      var x := db.leases[l];
      if x.reportId == report && x.status.Leased? then x.(status := Released) else x)
  }

  /** `mark_active_lost`. */
  function AllLost(db: Db): Db {
    db.(leases := map l | l in db.leases ::
      var x := db.leases[l];
      if x.status.Leased? then x.(status := Lost) else x)
  }

  /** `_mark_run_start_failed`. */
  function StartFailed(db: Db, testcase: Id, report: Id, queued: bool): Db {
    var failed := FailReport(SetCase(db, testcase, RunFailed), report, StartRefused);
    if queued then CloseEntry(failed, report, QFailed, false) else failed
  }

  /** `_update_testcase_and_report` with `sync_report_status`: skipped unless the report still runs. */
  function CalledBackWith(db: Db, testcase: Id, report: Id, final: CaseStatus): Db {
    if report in db.reports && !db.reports[report].status.RunIng? then db
    else if report !in db.reports then SetCase(db, testcase, final)
    else CloseEntry(SetReport(SetCase(db, testcase, final), report, final), report, ClosedStatus(final), true)
  }

  /** The final write of `stop_execution` and `stop_testcase` for one report. */
  function UserStopped(db: Db, report: Id): Db
    requires report in db.reports
  {
    CloseEntry(FailReport(SetCase(db, db.reports[report].testcase, RunFailed), report, StoppedByUser),
               report, QFailed, false)
  }

  /** The final write of the timeout scan for one report: the queue is not touched. */
  function ScanTimedOut(db: Db, report: Id): Db
    requires report in db.reports
  {
    ReleasedBy(FailReport(SetCase(db, db.reports[report].testcase, RunFailed), report, TimedOut), report)
  }

  /** A report recovery signals first, which marks its run record as stopping: one that still
      runs, or whose run record is active. */
  predicate IsLeftover(db: Db, report: Id) {
    || (report in db.reports && db.reports[report].status.RunIng?)
    || (report in db.runs && IsActiveRun(db.runs[report]))
  }

  /** The writes of `_recover_stuck_tasks`. */
  function Recovered(db: Db): Db {
    AllLost(Db(
      map t | t in db.testcases :: if db.testcases[t].RunIng? then RunFailed else db.testcases[t],
      map r | r in db.reports ::
        if db.reports[r].status.RunIng? then db.reports[r].(status := RunFailed, reason := Restarted) else db.reports[r],
      map q | q in db.queue ::
        if db.queue[q].status.QRunning? || db.queue[q].status.QCanceling?
        then db.queue[q].(status := QFailed) else db.queue[q],
      map r | r in db.runs :: if IsLeftover(db, r) then RLost else db.runs[r],
      db.leases))
  }

  // ----- the tables in place -----------------------------------------------------------------

  datatype Outcome = Done | Refused

  class Tables {
    var testcases: map<Id, CaseStatus>
    var reports: map<Id, Report>
    var queue: map<Id, Entry>
    var runs: map<Id, RunStatus>
    var leases: map<Id, Lease>

    function View(): Db
      reads this
    {
      Db(testcases, reports, queue, runs, leases)
    }

    method SetCaseStatus(testcase: Id, status: CaseStatus)
      modifies this`testcases
      ensures View() == SetCase(old(View()), testcase, status)
    {
      if testcase in testcases {
        testcases := testcases[testcase := status];
      }
    }

    /** `get_active_by_testcase_region`. */
    method FindActiveEntry(testcase: Id, region: string) returns (found: bool)
      ensures found == HasActiveEntry(View(), testcase, region)
      ensures found <==> exists q :: q in queue && queue[q].testcase == testcase && queue[q].region == region &&
                                     queue[q].status in {QPending, QRunning, QCanceling}
    {
      var ids := queue.Keys;
      while ids != {}
        invariant ids <= queue.Keys
        invariant forall q | q in queue && q !in ids ::
          !(queue[q].testcase == testcase && queue[q].region == region && IsActive(queue[q].status))
        decreases |ids|
      {
        ghost var some := Member(ids);
        var q: Id :| q in ids;
        if queue[q].testcase == testcase && queue[q].region == region && IsActive(queue[q].status) {
          assert q in View().queue;
          return true;
        }
        ids := ids - {q};
      }
      return false;
    }

    /** `enqueue_manual_execution`: one active entry per testcase and region. */
    method Enqueue(testcase: Id, region: string, entry: Id) returns (outcome: Outcome)
      modifies this
      ensures outcome == (if HasActiveEntry(old(View()), testcase, region) || testcase !in old(testcases) then Refused else Done)
      ensures View() == if outcome.Done? then Enqueued(old(View()), entry, testcase, region) else old(View())
    {
      var found := FindActiveEntry(testcase, region);
      if found || testcase !in testcases {
        return Refused;
      }
      queue := queue[entry := Entry(testcase, region, QPending, 0)];
      testcases := testcases[testcase := RunWaiting];
      return Done;
    }

    /** `cancel_pending_execution`. */
    method Cancel(entry: Id) returns (outcome: Outcome)
      modifies this
      ensures outcome == (if entry in old(queue) && old(queue)[entry].status.QPending? then Done else Refused)
      ensures View() == if outcome.Done? then Cancelled(old(View()), entry) else old(View())
    {
      if entry !in queue || queue[entry].status != QPending {
        return Refused;
      }
      queue := queue[entry := queue[entry].(status := QCanceled)];
      SetCaseStatus(queue[entry].testcase, WaitCancel);
      return Done;
    }

    /** `_claim_execution_queue_for_start`. The check is on the session's copy of the row, which
        holds the status `seen` when the dispatcher refreshed it; the write goes to the row. */
    method Claim(entry: Id, seen: QueueStatus) returns (outcome: Outcome)
      modifies this
      ensures outcome == (if entry in old(queue) && seen.QPending? then Done else Refused)
      ensures View() == if outcome.Done? then ClaimedEntry(old(View()), entry) else old(View())
    {
      if entry !in queue || seen != QPending {
        return Refused;
      }
      queue := queue[entry := queue[entry].(status := QRunning)];
      return Done;
    }

    /** `_bind_execution_queue_report`. */
    method Bind(entry: Id, report: Id) returns (outcome: Outcome)
      modifies this
      ensures outcome == (if entry in old(queue) && old(queue)[entry].status.QRunning? then Done else Refused)
      ensures View() == if outcome.Done? then BoundEntry(old(View()), entry, report) else old(View())
    {
      if entry !in queue || queue[entry].status != QRunning {
        return Refused;
      }
      queue := queue[entry := queue[entry].(reportId := report)];
      return Done;
    }

    /** `lease_nodes`: refused when any requested node is already leased. */
    method LeaseNodes(report: Id, grants: map<Id, Id>) returns (outcome: Outcome)
      requires grants.Keys !! leases.Keys
      modifies this`leases
      ensures outcome == (if grants.Values !! LeasedNodes(old(View())) then Done else Refused)
      ensures View() == if outcome.Done? then Granted(old(View()), report, grants) else old(View())
      ensures outcome.Done? <==> forall l, g | l in old(leases) && g in grants && old(leases)[l].status.Leased? ::
        old(leases)[l].nodeId != grants[g]
      ensures outcome.Done? ==> leases.Keys == old(leases).Keys + grants.Keys
      ensures outcome.Done? ==> forall l | l in grants :: leases[l] == Lease(report, grants[l], Leased)
      ensures forall l | l in old(leases) :: l in leases && leases[l] == old(leases)[l]
    {
      GrantsAreFree(View(), grants);
      if !(grants.Values !! LeasedNodes(View())) {
        return Refused;
      }
      AddGrants(report, grants);
      return Done;
    }

    /** One row per granted node. */
    method AddGrants(report: Id, grants: map<Id, Id>)
      requires grants.Keys !! leases.Keys
      modifies this`leases
      ensures View() == Granted(old(View()), report, grants)
    {
      var todo := grants.Keys;
      NothingGranted(leases, report, grants);
      while todo != {}
        invariant todo <= grants.Keys
        invariant leases == old(leases) + GrantRows(report, grants, grants.Keys - todo)
        decreases |todo|
      {
        ghost var some := Member(todo);
        var l: Id :| l in todo;
        RowGranted(old(leases), report, grants, grants.Keys - todo, l);
        assert grants.Keys - (todo - {l}) == grants.Keys - todo + {l};
        leases := leases[l := Lease(report, grants[l], Leased)];
        todo := todo - {l};
      }
      assert grants.Keys - {} == grants.Keys;
    }

    /** `release_by_report`: every active lease of the report, and no other row. */
    method ReleaseByReport(report: Id)
      modifies this`leases
      ensures View() == ReleasedBy(old(View()), report)
      ensures leases.Keys == old(leases).Keys
      ensures forall l | l in leases ::
        leases[l] == if old(leases)[l].reportId == report && old(leases)[l].status.Leased?
                     then old(leases)[l].(status := Released) else old(leases)[l]
    {
      var rows := set l | l in leases && leases[l].reportId == report && leases[l].status.Leased?;
      while rows != {}
        invariant leases.Keys == old(leases).Keys
        invariant forall l | l in rows ::
          l in leases && leases[l] == old(leases)[l] && leases[l].reportId == report && leases[l].status.Leased?
        invariant forall l | l in leases && l !in rows ::
          leases[l] == if old(leases)[l].reportId == report && old(leases)[l].status.Leased?
                       then old(leases)[l].(status := Released) else old(leases)[l]
        decreases |rows|
      {
        ghost var some := Member(rows);
        var l: Id :| l in rows;
        leases := leases[l := leases[l].(status := Released)];
        rows := rows - {l};
      }
    }

    /** `mark_active_lost`. */
    method MarkActiveLost()
      modifies this`leases
      ensures View() == AllLost(old(View()))
    {
      var rows := set l | l in leases && leases[l].status.Leased?;
      while rows != {}
        invariant leases.Keys == old(leases).Keys
        invariant forall l | l in rows :: l in leases && leases[l] == old(leases)[l] && leases[l].status.Leased?
        invariant forall l | l in leases && l !in rows ::
          leases[l] == if old(leases)[l].status.Leased? then old(leases)[l].(status := Lost) else old(leases)[l]
        decreases |rows|
      {
        ghost var some := Member(rows);
        var l: Id :| l in rows;
        leases := leases[l := leases[l].(status := Lost)];
        rows := rows - {l};
      }
    }

    /** `get_by_report_id`, given that no two entries share a bound report. */
    method EntryOfReport(report: Id) returns (entry: Option<Id>)
      ensures entry.Some? ==> entry.value in queue && queue[entry.value].reportId == report
      ensures entry.None? ==> forall q | q in queue :: queue[q].reportId != report
    {
      var ids := queue.Keys;
      while ids != {}
        invariant ids <= queue.Keys
        invariant forall q | q in queue && q !in ids :: queue[q].reportId != report
        decreases |ids|
      {
        ghost var some := Member(ids);
        var q: Id :| q in ids;
        if queue[q].reportId == report {
          return Some(q);
        }
        ids := ids - {q};
      }
      return None;
    }

    ghost predicate OneEntryPer(report: Id)
      reads this
    {
      forall q, p | q in queue && p in queue && queue[q].reportId == report && queue[p].reportId == report :: q == p
    }

    method CloseEntryOf(report: Id, status: QueueStatus, liveOnly: bool)
      requires OneEntryPer(report)
      modifies this`queue
      ensures View() == CloseEntry(old(View()), report, status, liveOnly)
    {
      var entry := EntryOfReport(report);
      if entry.Some? {
        var e := queue[entry.value];
        if !liveOnly || e.status == QRunning || e.status == QCanceling {
          queue := queue[entry.value := e.(status := status)];
        }
      }
      assert queue == CloseEntry(old(View()), report, status, liveOnly).queue;
    }

    /** `_mark_run_start_failed`. */
    method MarkRunStartFailed(testcase: Id, report: Id, queued: bool)
      requires OneEntryPer(report)
      modifies this
      ensures View() == StartFailed(old(View()), testcase, report, queued)
    {
      SetCaseStatus(testcase, RunFailed);
      if report in reports {
        reports := reports[report := reports[report].(status := RunFailed, reason := StartRefused)];
      }
      if queued {
        CloseEntryOf(report, QFailed, false);
      }
    }

    /** `_update_testcase_and_report`. */
    method UpdateTestcaseAndReport(testcase: Id, report: Id, final: CaseStatus)
      requires OneEntryPer(report)
      modifies this
      ensures View() == CalledBackWith(old(View()), testcase, report, final)
      ensures report in old(reports) && !old(reports)[report].status.RunIng? ==> View() == old(View())
      ensures report !in old(reports) || old(reports)[report].status.RunIng? ==>
        testcases == if testcase in old(testcases) then old(testcases)[testcase := final] else old(testcases)
      ensures report in old(reports) && old(reports)[report].status.RunIng? ==>
        reports == old(reports)[report := old(reports)[report].(status := final)]
    {
      if report in reports && reports[report].status != RunIng {
        return;
      }
      SetCaseStatus(testcase, final);
      if report in reports {
        reports := reports[report := reports[report].(status := final)];
        CloseEntryOf(report, ClosedStatus(final), true);
      }
    }

    /** `_mark_report_stopped` and `_mark_execution_queue_stopped`. */
    method MarkStopped(report: Id)
      requires report in reports && OneEntryPer(report)
      modifies this
      ensures View() == UserStopped(old(View()), report)
    {
      SetCaseStatus(reports[report].testcase, RunFailed);
      reports := reports[report := reports[report].(status := RunFailed, reason := StoppedByUser)];
      CloseEntryOf(report, QFailed, false);
    }

    /** The write the timeout scan makes for one overdue report. */
    method MarkTimedOut(report: Id)
      requires report in reports
      modifies this
      ensures View() == ScanTimedOut(old(View()), report)
    {
      SetCaseStatus(reports[report].testcase, RunFailed);
      reports := reports[report := reports[report].(status := RunFailed, reason := TimedOut)];
      ReleaseByReport(report);
    }

    method FailRunningReports()
      modifies this`reports
      ensures reports == Recovered(old(View())).reports
    {
      var rows := set r | r in reports && reports[r].status.RunIng?;
      while rows != {}
        invariant reports.Keys == old(reports).Keys
        invariant forall r | r in rows :: r in reports && reports[r] == old(reports)[r] && reports[r].status.RunIng?
        invariant forall r | r in reports && r !in rows ::
          reports[r] == if old(reports)[r].status.RunIng?
                        then old(reports)[r].(status := RunFailed, reason := Restarted) else old(reports)[r]
        decreases |rows|
      {
        ghost var some := Member(rows);
        var r: Id :| r in rows;
        reports := reports[r := reports[r].(status := RunFailed, reason := Restarted)];
        rows := rows - {r};
      }
    }

    method FailRunningCases()
      modifies this`testcases
      ensures testcases == Recovered(old(View())).testcases
    {
      var rows := set t | t in testcases && testcases[t].RunIng?;
      while rows != {}
        invariant testcases.Keys == old(testcases).Keys
        invariant forall t | t in rows :: t in testcases && testcases[t] == old(testcases)[t] && testcases[t].RunIng?
        invariant forall t | t in testcases && t !in rows ::
          testcases[t] == if old(testcases)[t].RunIng? then RunFailed else old(testcases)[t]
        decreases |rows|
      {
        ghost var some := Member(rows);
        var t: Id :| t in rows;
        testcases := testcases[t := RunFailed];
        rows := rows - {t};
      }
    }

    method FailLiveEntries()
      modifies this`queue
      ensures queue == Recovered(old(View())).queue
    {
      var rows := set q | q in queue && (queue[q].status.QRunning? || queue[q].status.QCanceling?);
      while rows != {}
        invariant queue.Keys == old(queue).Keys
        invariant forall q | q in rows ::
          q in queue && queue[q] == old(queue)[q] && (queue[q].status.QRunning? || queue[q].status.QCanceling?)
        invariant forall q | q in queue && q !in rows ::
          queue[q] == if old(queue)[q].status.QRunning? || old(queue)[q].status.QCanceling?
                      then old(queue)[q].(status := QFailed) else old(queue)[q]
        decreases |rows|
      {
        ghost var some := Member(rows);
        var q: Id :| q in rows;
        queue := queue[q := queue[q].(status := QFailed)];
        rows := rows - {q};
      }
    }

    /** The signalling loop: `launch_stop` marks each leftover run record as stopping. */
    method SignalLeftovers()
      modifies this`runs
      ensures runs == map r | r in old(runs) :: if IsLeftover(old(View()), r) then RStopping else old(runs)[r]
    {
      var rows := set r | r in runs && IsLeftover(View(), r);
      while rows != {}
        invariant runs.Keys == old(runs).Keys
        invariant forall r | r in rows :: r in runs && IsLeftover(old(View()), r)
        invariant forall r | r in runs ::
          runs[r] == if r !in rows && IsLeftover(old(View()), r) then RStopping else old(runs)[r]
        decreases |rows|
      {
        ghost var some := Member(rows);
        var r: Id :| r in rows;
        runs := runs[r := RStopping];
        rows := rows - {r};
      }
    }

    method LoseActiveRuns()
      modifies this`runs
      ensures runs == map r | r in old(runs) :: if IsActiveRun(old(runs)[r]) then RLost else old(runs)[r]
    {
      var rows := set r | r in runs && IsActiveRun(runs[r]);
      while rows != {}
        invariant runs.Keys == old(runs).Keys
        invariant forall r | r in rows :: r in runs && runs[r] == old(runs)[r] && IsActiveRun(runs[r])
        invariant forall r | r in runs && r !in rows ::
          runs[r] == if IsActiveRun(old(runs)[r]) then RLost else old(runs)[r]
        decreases |rows|
      {
        ghost var some := Member(rows);
        var r: Id :| r in rows;
        runs := runs[r := RLost];
        rows := rows - {r};
      }
    }

    /** `_recover_stuck_tasks`. */
    method RecoverStuckTasks()
      modifies this
      ensures View() == Recovered(old(View()))
    {
      SignalLeftovers();
      FailRunningReports();
      FailRunningCases();
      FailLiveEntries();
      LoseActiveRuns();
      MarkActiveLost();
      assert runs == Recovered(old(View())).runs;
    }
  }

  // ----- recovery ------------------------------------------------------------------------------

  ghost predicate Quiet(db: Db) {
    && (forall t | t in db.testcases :: !db.testcases[t].RunIng?)
    && (forall r | r in db.reports :: !db.reports[r].status.RunIng?)
    && (forall q | q in db.queue :: !db.queue[q].status.QRunning? && !db.queue[q].status.QCanceling?)
    && (forall r | r in db.runs :: !IsActiveRun(db.runs[r]))
    && (forall l | l in db.leases :: !db.leases[l].status.Leased?)
  }

  /** From any tables at all, recovery leaves nothing running: testcases, reports and entries that
      ran have failed, active run records and leases are lost. It adds and drops no row, keeps every
      row that was not running, pending entries among them, and doing it again changes nothing. */
  lemma RecoveryIsQuietAndIdempotent(db: Db)
    ensures Quiet(Recovered(db))
    ensures Recovered(Recovered(db)) == Recovered(db)
    ensures Quiet(db) ==> Recovered(db) == db
    ensures Recovered(db).testcases.Keys == db.testcases.Keys && Recovered(db).reports.Keys == db.reports.Keys
    ensures Recovered(db).queue.Keys == db.queue.Keys && Recovered(db).leases.Keys == db.leases.Keys
    ensures forall t | t in db.testcases ::
      Recovered(db).testcases[t] == (if db.testcases[t] == RunIng then RunFailed else db.testcases[t])
    ensures forall r | r in db.reports && !db.reports[r].status.RunIng? :: Recovered(db).reports[r] == db.reports[r]
    ensures forall r | r in db.reports && db.reports[r].status.RunIng? ::
      Recovered(db).reports[r] == db.reports[r].(status := RunFailed, reason := Restarted)
    ensures forall q | q in db.queue && db.queue[q].status !in {QRunning, QCanceling} :: Recovered(db).queue[q] == db.queue[q]
    ensures forall q | q in db.queue && db.queue[q].status in {QRunning, QCanceling} ::
      Recovered(db).queue[q] == db.queue[q].(status := QFailed)
    ensures forall l | l in db.leases && !db.leases[l].status.Leased? :: Recovered(db).leases[l] == db.leases[l]
    ensures forall l | l in db.leases && db.leases[l].status.Leased? ::
      Recovered(db).leases[l] == db.leases[l].(status := Lost)
    ensures forall r | r in db.runs && db.runs[r] in {RPreparing, RRunning, RStopping} ::
      r in Recovered(db).runs && Recovered(db).runs[r] == RLost
  {
    var once := Recovered(db);
    RecoveredWhenQuiet(once);
    if Quiet(db) {
      RecoveredWhenQuiet(db);
    }
  }

  lemma RecoveredWhenQuiet(db: Db)
    requires Quiet(db)
    ensures Recovered(db) == db
  {
    var again := Recovered(db);
    assert again.testcases == db.testcases && again.reports == db.reports && again.queue == db.queue;
    assert again.runs == db.runs && again.leases == db.leases;
  }
}
