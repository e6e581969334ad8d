/** Every row of every table after any event, told from the event and the row alone: what the
    commits of `ExecutionTables` do, without them. */
module LifecycleRows {
  import opened Options
  import opened ExecutionTables
  import opened CommitFacts
  import opened Lifecycle
  import opened LifecycleInvariant
  import opened LifecycleSteps
  import opened LifecycleLaunchSteps
  import opened LifecycleStepProof
  import opened LifecycleHistory
  import opened LifecycleEntries

  function Find<V>(m: map<Id, V>, k: Id): Option<V> { if k in m then Some(m[k]) else None }

  lemma ClosedKeeps(db: Db, r: Id, status: QueueStatus, liveOnly: bool)
    ensures CloseEntry(db, r, status, liveOnly) == db.(queue := CloseEntry(db, r, status, liveOnly).queue)
  {}

  // ----- testcases ------------------------------------------------------------------------------------------

  /** Queued testcases wait, canceled ones are marked, a start sets its own running; a callback
      gives the verdict of the exit while the report runs; whatever gives up fails it. */
  function NextCase(s: System, e: Event, t: Id): CaseStatus
    requires Enabled(s, e) && t in s.db.testcases
  {
    var x := s.db.testcases[t];
    match e
    case Enqueue(_, queued, _) => if queued == t then RunWaiting else x
    case Cancel(q) => if s.db.queue[q].testcase == t then WaitCancel else x
    case MarkRunning(id) => if s.starts[id].testcase == t then RunIng else x
    case RefuseLaunch(id) =>
      if s.starts[id].testcase == t && !EndedReport(s, s.starts[id].reportId) then RunFailed else x
    case MarkStartFailed(id) => if s.starts[id].testcase == t then RunFailed else x
    case Abort(id, unexpected) =>
      if && unexpected && s.starts[id].testcase == t && s.starts[id].entry.Some? && s.starts[id].entry.value in s.db.queue
      then RunFailed else x
    case Callback(r) =>
      if s.runners[r].testcase != t || EndedReport(s, r) then x
      else if CleanExit(s.runners[r]) then RunSuccess else RunFailed
    case StopFinish(k) => if s.db.reports[s.stops[k].reportId].testcase == t then RunFailed else x
    case StopCleanup(stopped) => if stopped == t then RunFailed else x
    case Restart => if x.RunIng? then RunFailed else x
    case _ => x
  }

  lemma CalledBackCase(db: Db, testcase: Id, r: Id, final: CaseStatus, t: Id)
    requires t in db.testcases
    ensures
      var d := CalledBackWith(db, testcase, r, final);
      t in d.testcases && d.testcases[t] ==
        if testcase == t && !(r in db.reports && !db.reports[r].status.RunIng?) then final else db.testcases[t]
  {
    hide CloseEntry, SetReport, ClosedStatus;
    ReportOnly(SetCase(db, testcase, final), r, final);
    ClosedKeeps(SetReport(SetCase(db, testcase, final), r, final), r, ClosedStatus(final), true);
  }

  lemma ReportOnly(db: Db, r: Id, status: CaseStatus)
    ensures SetReport(db, r, status) == db.(reports := SetReport(db, r, status).reports)
  {}

  lemma FailedCase(db: Db, testcase: Id, r: Id, queued: bool, t: Id)
    requires t in db.testcases
    ensures
      var d := StartFailed(db, testcase, r, queued);
      t in d.testcases && d.testcases[t] == if testcase == t then RunFailed else db.testcases[t]
  {
    hide CloseEntry;
    ClosedKeeps(FailReport(SetCase(db, testcase, RunFailed), r, StartRefused), r, QFailed, false);
  }

  lemma StoppedCase(db: Db, r: Id, t: Id)
    requires r in db.reports && t in db.testcases
    ensures t in UserStopped(db, r).testcases && t in ScanTimedOut(db, r).testcases
    ensures UserStopped(db, r).testcases[t] == ScanTimedOut(db, r).testcases[t] ==
      if db.reports[r].testcase == t then RunFailed else db.testcases[t]
  {
    hide CloseEntry, ReleasedBy;
    ClosedKeeps(FailReport(SetCase(db, db.reports[r].testcase, RunFailed), r, StoppedByUser), r, QFailed, false);
    ReleasedFacts(FailReport(SetCase(db, db.reports[r].testcase, RunFailed), r, TimedOut), r);
  }

  lemma QueuedCase(db: Db, q: Id, testcase: Id, region: string, t: Id)
    requires t in db.testcases
    ensures t in Enqueued(db, q, testcase, region).testcases
    ensures Enqueued(db, q, testcase, region).testcases[t] == if testcase == t then RunWaiting else db.testcases[t]
    ensures q in db.queue ==>
      t in Cancelled(db, q).testcases &&
      Cancelled(db, q).testcases[t] == if db.queue[q].testcase == t then WaitCancel else db.testcases[t]
  {}

  lemma RecoveredCase(db: Db, t: Id)
    requires t in db.testcases
    ensures t in Recovered(db).testcases
    ensures Recovered(db).testcases[t] == if db.testcases[t].RunIng? then RunFailed else db.testcases[t]
  {}

  predicate StartWritesCase(e: Event) { e.MarkRunning? || e.RefuseLaunch? || e.MarkStartFailed? || e.Abort? }

  lemma StartCaseStep(s: System, e: Event, t: Id)
    requires Enabled(s, e) && OfStart(e) && t in s.db.testcases
    ensures t in Apply(s, e).db.testcases && Apply(s, e).db.testcases[t] == NextCase(s, e, t)
  {
    if e.RefuseLaunch? || e.MarkStartFailed? {
      hide CalledBackWith, StartFailed;
      match e
      case RefuseLaunch(id) => CalledBackCase(s.db, s.starts[id].testcase, s.starts[id].reportId, RunFailed, t);
      case MarkStartFailed(id) => FailedCase(s.db, s.starts[id].testcase, s.starts[id].reportId, s.starts[id].entry.Some?, t);
    } else if e.MarkRunning? || e.Abort? {
      OwnCaseStep(s, e, t);
    } else {
      KeptCases(s, e);
      hide Apply, Enabled;
    }
  }

  lemma OwnCaseStep(s: System, e: Event, t: Id)
    requires Enabled(s, e) && (e.MarkRunning? || e.Abort?) && t in s.db.testcases
    ensures t in Apply(s, e).db.testcases && Apply(s, e).db.testcases[t] == NextCase(s, e, t)
  {
    hide MayAbort;
  }

  /** What a start writes before its report and in the queue. */
  lemma EarlyWrites(s: System, e: Event)
    requires Enabled(s, e) && (e.Admit? || e.ChooseSlaves? || e.AddReport? || e.MarkRunning?)
    ensures Apply(s, e).db.leases == s.db.leases && Apply(s, e).db.runs == s.db.runs
    ensures !e.MarkRunning? ==> Apply(s, e).db.testcases == s.db.testcases
  {
    hide MayAdmit, MayChoose;
  }

  lemma QueueWrites(s: System, e: Event)
    requires Enabled(s, e) && (e.Claim? || e.Bind? || e.Settle?)
    ensures Apply(s, e).db == s.db.(queue := Apply(s, e).db.queue)
  {}

  lemma AbortWrites(s: System, e: Event)
    requires Enabled(s, e) && e.Abort?
    ensures Apply(s, e).db.leases == s.db.leases && Apply(s, e).db.runs == s.db.runs
  {
    hide MayAbort;
  }

  lemma LeaseWrites(s: System, e: Event)
    requires Enabled(s, e) && (e.LeaseNodes? || e.ReleaseAfterRefusal?)
    ensures Apply(s, e).db == s.db.(leases := Apply(s, e).db.leases)
  {
    hide LeasedNodes, ReleasedBy, Granted, Freeing;
    match e
    case LeaseNodes(id, grants) => GrantedOnlyLeases(s.db, s.starts[id].reportId, grants);
    case ReleaseAfterRefusal(id) => ReleasedFacts(s.db, s.starts[id].reportId);
  }

  lemma LaunchWrites(s: System, e: Event)
    requires Enabled(s, e) && e.Launch?
    ensures Apply(s, e).db == s.db.(runs := Apply(s, e).db.runs)
  {}

  lemma KeptCases(s: System, e: Event)
    requires Enabled(s, e) && OfStart(e) && !StartWritesCase(e)
    ensures Apply(s, e).db.testcases == s.db.testcases
  {
    hide Enabled, Apply;
    if e.Launch? {
      LaunchWrites(s, e);
    } else if e.LeaseNodes? || e.ReleaseAfterRefusal? {
      LeaseWrites(s, e);
    } else if e.Claim? || e.Bind? || e.Settle? {
      QueueWrites(s, e);
    } else {
      EarlyWrites(s, e);
    }
  }

  lemma OtherCaseStep(s: System, e: Event, t: Id)
    requires Enabled(s, e) && !OfStart(e) && t in s.db.testcases
    ensures t in Apply(s, e).db.testcases && Apply(s, e).db.testcases[t] == NextCase(s, e, t)
  {
    hide HasActiveEntry, HasRunningReport, CalledBackWith, ReleasedBy, UserStopped, ScanTimedOut, Enqueued, Cancelled, Recovered,
         FinalOf, Freeing;
    match e
    case Enqueue(q, queued, region) => QueuedCase(s.db, q, queued, region, t);
    case Cancel(q) => QueuedCase(s.db, q, 0, "", t);
    case Callback(r) => CalledBackCase(s.db, s.runners[r].testcase, r, FinalOf(s.runners[r]), t);
    case RunnerRelease(r) => ReleasedFacts(s.db, r);
    case StopRelease(k) => ReleasedFacts(s.db, s.stops[k].reportId);
    case StopFinish(k) => StoppedCase(s.db, s.stops[k].reportId, t);
    case Restart => RecoveredCase(s.db, t);
    case _ =>
  }

  /** No event touches a testcase in any other way. */
  lemma CaseStep(s: System, e: Event, t: Id)
    requires Enabled(s, e) && t in s.db.testcases
    ensures t in Apply(s, e).db.testcases && Apply(s, e).db.testcases[t] == NextCase(s, e, t)
  {
    hide Enabled, Apply, NextCase;
    if OfStart(e) {
      StartCaseStep(s, e, t);
    } else {
      OtherCaseStep(s, e, t);
    }
  }

  // ----- reports --------------------------------------------------------------------------------------------

  function NextReport(s: System, e: Event, r: Id): Option<Report>
    requires Enabled(s, e)
  {
    var x := Find(s.db.reports, r);
    match e
    case AddReport(id, added) =>
      if added == r then Some(Report(s.starts[id].testcase, s.starts[id].region, RunIng, Started)) else x
    case RefuseLaunch(id) =>
      if s.starts[id].reportId == r && RunningReport(s, r) then Some(x.value.(status := RunFailed)) else x
    case MarkStartFailed(id) =>
      if s.starts[id].reportId == r && x.Some? then Some(x.value.(status := RunFailed, reason := StartRefused)) else x
    case Callback(k) =>
      if k == r && RunningReport(s, r)
      then Some(x.value.(status := if CleanExit(s.runners[r]) then RunSuccess else RunFailed)) else x
    case StopFinish(k) =>
      if s.stops[k].reportId == r
      then Some(x.value.(status := RunFailed, reason := if s.stops[k].byUser then StoppedByUser else TimedOut)) else x
    case Restart => if RunningReport(s, r) then Some(x.value.(status := RunFailed, reason := Restarted)) else x
    case _ => x
  }

  lemma CalledBackReport(db: Db, testcase: Id, k: Id, final: CaseStatus, r: Id)
    ensures Find(CalledBackWith(db, testcase, k, final).reports, r) ==
      if k == r && r in db.reports && db.reports[r].status.RunIng? then Some(db.reports[r].(status := final))
      else Find(db.reports, r)
  {
    hide CloseEntry;
    ClosedKeeps(SetReport(SetCase(db, testcase, final), k, final), k, ClosedStatus(final), true);
  }

  lemma FailedReport(db: Db, testcase: Id, k: Id, queued: bool, r: Id)
    ensures Find(StartFailed(db, testcase, k, queued).reports, r) ==
      if k == r && r in db.reports then Some(db.reports[r].(status := RunFailed, reason := StartRefused))
      else Find(db.reports, r)
  {
    hide CloseEntry;
    ClosedKeeps(FailReport(SetCase(db, testcase, RunFailed), k, StartRefused), k, QFailed, false);
  }

  lemma StoppedReport(db: Db, k: Id, r: Id)
    requires k in db.reports
    ensures Find(UserStopped(db, k).reports, r) ==
      if k == r then Some(db.reports[r].(status := RunFailed, reason := StoppedByUser)) else Find(db.reports, r)
    ensures Find(ScanTimedOut(db, k).reports, r) ==
      if k == r then Some(db.reports[r].(status := RunFailed, reason := TimedOut)) else Find(db.reports, r)
  {
    hide CloseEntry;
    ClosedKeeps(FailReport(SetCase(db, db.reports[k].testcase, RunFailed), k, StoppedByUser), k, QFailed, false);
  }

  lemma RecoveredReport(db: Db, r: Id)
    ensures Find(Recovered(db).reports, r) ==
      if r in db.reports && db.reports[r].status.RunIng?
      then Some(db.reports[r].(status := RunFailed, reason := Restarted)) else Find(db.reports, r)
  {}

  /** No event touches a report in any other way, and only a start adds one. */
  lemma ReportRowStep(s: System, e: Event, r: Id)
    requires Inv(s) && Enabled(s, e)
    ensures Find(Apply(s, e).db.reports, r) == NextReport(s, e, r)
  {
    if WritesReports(e) {
      WrittenReportStep(s, e, r);
    } else {
      OtherEventsKeepReports(s, e);
      hide Inv, Enabled, Apply;
    }
  }

  lemma WrittenReportStep(s: System, e: Event, r: Id)
    requires Enabled(s, e) && WritesReports(e)
    ensures Find(Apply(s, e).db.reports, r) == NextReport(s, e, r)
  {
    hide CalledBackWith, StartFailed, UserStopped, ScanTimedOut, Recovered, FinalOf;
    match e
    case AddReport(_, _) =>
    case RefuseLaunch(id) => CalledBackReport(s.db, s.starts[id].testcase, s.starts[id].reportId, RunFailed, r);
    case MarkStartFailed(id) => FailedReport(s.db, s.starts[id].testcase, s.starts[id].reportId, s.starts[id].entry.Some?, r);
    case Callback(k) => CalledBackReport(s.db, s.runners[k].testcase, k, FinalOf(s.runners[k]), r);
    case StopFinish(k) => StoppedReport(s.db, s.stops[k].reportId, r);
    case Restart => RecoveredReport(s.db, r);
  }

  // ----- leases ---------------------------------------------------------------------------------------------

  predicate NodeTaken(s: System, node: Id) {
    exists l :: l in s.db.leases && s.db.leases[l].status.Leased? && s.db.leases[l].nodeId == node
  }

  /** None of the nodes asked for is leased. */
  predicate AllFree(s: System, grants: map<Id, Id>) { forall l | l in grants :: !NodeTaken(s, grants[l]) }

  /** The lease of a report ends, any other stays. */
  function Freed(x: Option<Lease>, r: Id): Option<Lease> {
    if x.Some? && x.value.reportId == r && x.value.status.Leased? then Some(x.value.(status := Released)) else x
  }

  function NextLease(s: System, e: Event, l: Id): Option<Lease>
    requires Enabled(s, e)
  {
    var x := Find(s.db.leases, l);
    match e
    case LeaseNodes(id, grants) =>
      if l in grants && AllFree(s, grants) then Some(Lease(s.starts[id].reportId, grants[l], Leased)) else x
    case ReleaseAfterRefusal(id) => Freed(x, s.starts[id].reportId)
    case RunnerRelease(r) => Freed(x, r)
    case StopRelease(k) => Freed(x, s.stops[k].reportId)
    case StopFinish(k) => if s.stops[k].byUser then x else Freed(x, s.stops[k].reportId)
    case Restart => if x.Some? && x.value.status.Leased? then Some(x.value.(status := Lost)) else x
    case _ => x
  }

  lemma FreeIffDisjoint(s: System, grants: map<Id, Id>)
    ensures AllFree(s, grants) <==> grants.Values !! LeasedNodes(s.db)
  {
    if AllFree(s, grants) {
      forall n | n in grants.Values
        ensures n !in LeasedNodes(s.db)
      {
        var l :| l in grants && grants[l] == n;
        assert !NodeTaken(s, grants[l]);
      }
    } else {
      var l :| l in grants && NodeTaken(s, grants[l]);
      assert grants[l] in grants.Values && grants[l] in LeasedNodes(s.db);
    }
  }

  lemma GrantedLease(db: Db, report: Id, grants: map<Id, Id>, l: Id)
    ensures Find(Granted(db, report, grants).leases, l) ==
      if l in grants then Some(Lease(report, grants[l], Leased)) else Find(db.leases, l)
  {}

  lemma ReleasedLease(db: Db, r: Id, l: Id)
    ensures Find(ReleasedBy(db, r).leases, l) == Freed(Find(db.leases, l), r)
  {}

  lemma CallbackKeepsOthers(db: Db, testcase: Id, r: Id, final: CaseStatus)
    ensures CalledBackWith(db, testcase, r, final).leases == db.leases
    ensures CalledBackWith(db, testcase, r, final).runs == db.runs
  {
    hide CloseEntry;
    ClosedKeeps(SetReport(SetCase(db, testcase, final), r, final), r, ClosedStatus(final), true);
  }

  lemma FailureKeepsOthers(db: Db, testcase: Id, r: Id, queued: bool)
    ensures StartFailed(db, testcase, r, queued).leases == db.leases
    ensures StartFailed(db, testcase, r, queued).runs == db.runs
  {
    hide CloseEntry;
    ClosedKeeps(FailReport(SetCase(db, testcase, RunFailed), r, StartRefused), r, QFailed, false);
  }

  lemma StopKeepsOthers(db: Db, r: Id)
    requires r in db.reports
    ensures UserStopped(db, r).leases == db.leases && UserStopped(db, r).runs == db.runs
    ensures ScanTimedOut(db, r).runs == db.runs
  {
    hide CloseEntry, ReleasedBy;
    ClosedKeeps(FailReport(SetCase(db, db.reports[r].testcase, RunFailed), r, StoppedByUser), r, QFailed, false);
    ReleasedFacts(FailReport(SetCase(db, db.reports[r].testcase, RunFailed), r, TimedOut), r);
  }

  lemma StoppedLease(db: Db, r: Id, l: Id)
    requires r in db.reports
    ensures UserStopped(db, r).leases == db.leases
    ensures Find(ScanTimedOut(db, r).leases, l) == Freed(Find(db.leases, l), r)
  {
    hide ReleasedBy, UserStopped;
    StopKeepsOthers(db, r);
    ReleasedLease(FailReport(SetCase(db, db.reports[r].testcase, RunFailed), r, TimedOut), r, l);
  }

  lemma RecoveredLease(db: Db, l: Id)
    ensures Find(Recovered(db).leases, l) ==
      if l in db.leases && db.leases[l].status.Leased? then Some(db.leases[l].(status := Lost)) else Find(db.leases, l)
  {}

  lemma StartLeaseStep(s: System, e: Event, l: Id)
    requires Enabled(s, e) && OfStart(e)
    ensures Find(Apply(s, e).db.leases, l) == NextLease(s, e, l)
  {
    if e.LeaseNodes? || e.ReleaseAfterRefusal? {
      hide LeasedNodes, ReleasedBy, Granted, AllFree, Freed;
      match e
      case LeaseNodes(id, grants) => FreeIffDisjoint(s, grants); GrantedLease(s.db, s.starts[id].reportId, grants, l);
      case ReleaseAfterRefusal(id) => ReleasedLease(s.db, s.starts[id].reportId, l);
    } else {
      StartKeepsLeases(s, e);
      hide Apply, Enabled;
    }
  }

  lemma StartKeepsLeases(s: System, e: Event)
    requires Enabled(s, e) && OfStart(e) && !e.LeaseNodes? && !e.ReleaseAfterRefusal?
    ensures Apply(s, e).db.leases == s.db.leases
  {
    if e.RefuseLaunch? || e.MarkStartFailed? {
      FailureWrites(s, e);
    } else {
      hide Enabled, Apply;
      if e.Launch? {
        LaunchWrites(s, e);
      } else if e.Claim? || e.Bind? || e.Settle? {
        QueueWrites(s, e);
      } else if e.Abort? {
        AbortWrites(s, e);
      } else {
        EarlyWrites(s, e);
      }
    }
  }

  lemma FailureWrites(s: System, e: Event)
    requires Enabled(s, e) && (e.RefuseLaunch? || e.MarkStartFailed?)
    ensures Apply(s, e).db.leases == s.db.leases && Apply(s, e).db.runs == s.db.runs
  {
    hide CalledBackWith, StartFailed;
    match e
    case RefuseLaunch(id) => CallbackKeepsOthers(s.db, s.starts[id].testcase, s.starts[id].reportId, RunFailed);
    case MarkStartFailed(id) => FailureKeepsOthers(s.db, s.starts[id].testcase, s.starts[id].reportId, s.starts[id].entry.Some?);
  }

  lemma OtherLeaseStep(s: System, e: Event, l: Id)
    requires Enabled(s, e) && !OfStart(e)
    ensures Find(Apply(s, e).db.leases, l) == NextLease(s, e, l)
  {
    hide HasActiveEntry, HasRunningReport, CalledBackWith, ReleasedBy, UserStopped, ScanTimedOut, Recovered, FinalOf, Freed;
    match e
    case Callback(r) => CallbackKeepsOthers(s.db, s.runners[r].testcase, r, FinalOf(s.runners[r]));
    case RunnerRelease(r) => ReleasedLease(s.db, r, l);
    case StopRelease(k) => ReleasedLease(s.db, s.stops[k].reportId, l);
    case StopFinish(k) => StoppedLease(s.db, s.stops[k].reportId, l);
    case Restart => RecoveredLease(s.db, l);
    case _ =>
  }

  /** No event touches a lease in any other way. */
  lemma LeaseStep(s: System, e: Event, l: Id)
    requires Enabled(s, e)
    ensures Find(Apply(s, e).db.leases, l) == NextLease(s, e, l)
  {
    hide Enabled, Apply, NextLease;
    if OfStart(e) {
      StartLeaseStep(s, e, l);
    } else {
      OtherLeaseStep(s, e, l);
    }
  }

  // ----- run records ------------------------------------------------------------------------------------------

  function NextRun(s: System, e: Event, r: Id): Option<RunStatus>
    requires Enabled(s, e)
  {
    var x := Find(s.db.runs, r);
    match e
    case Launch(id) => if s.starts[id].reportId == r then Some(RPreparing) else x
    case ProcessStart(k) => if k == r && x.Some? then Some(RRunning) else x
    case ProcessError(k) => if k == r && x.Some? then Some(RFailed) else x
    case RecordRun(k) =>
      if k == r && x.Some?
      then Some(if s.runners[k].pc.final.RunSuccess? && x.value != RStopping then RSuccess else RFailed) else x
    case StopSignal(k) => if s.stops[k].reportId == r && x.Some? then Some(RStopping) else x
    case Restart =>
      if x.Some? && (RunningReport(s, r) || x.value.RPreparing? || x.value.RRunning? || x.value.RStopping?)
      then Some(RLost) else x
    case _ => x
  }

  lemma RecoveredRun(db: Db, r: Id)
    ensures Find(Recovered(db).runs, r) ==
      if r in db.runs && ((r in db.reports && db.reports[r].status.RunIng?) ||
                          db.runs[r].RPreparing? || db.runs[r].RRunning? || db.runs[r].RStopping?)
      then Some(RLost) else Find(db.runs, r)
  {}

  lemma StartRunStep(s: System, e: Event, r: Id)
    requires Enabled(s, e) && OfStart(e)
    ensures Find(Apply(s, e).db.runs, r) == NextRun(s, e, r)
  {
    if !e.Launch? {
      StartKeepsRuns(s, e);
      hide Apply, Enabled;
    }
  }

  lemma StartKeepsRuns(s: System, e: Event)
    requires Enabled(s, e) && OfStart(e) && !e.Launch?
    ensures Apply(s, e).db.runs == s.db.runs
  {
    if e.RefuseLaunch? || e.MarkStartFailed? {
      FailureWrites(s, e);
    } else {
      hide Enabled, Apply;
      if e.LeaseNodes? || e.ReleaseAfterRefusal? {
        LeaseWrites(s, e);
      } else if e.Claim? || e.Bind? || e.Settle? {
        QueueWrites(s, e);
      } else if e.Abort? {
        AbortWrites(s, e);
      } else {
        EarlyWrites(s, e);
      }
    }
  }

  lemma OtherRunStep(s: System, e: Event, r: Id)
    requires Enabled(s, e) && !OfStart(e)
    ensures Find(Apply(s, e).db.runs, r) == NextRun(s, e, r)
  {
    hide HasActiveEntry, HasRunningReport, CalledBackWith, ReleasedBy, UserStopped, ScanTimedOut, Recovered, FinalOf, Freeing;
    match e
    case Callback(k) => CallbackKeepsOthers(s.db, s.runners[k].testcase, k, FinalOf(s.runners[k]));
    case RunnerRelease(k) => ReleasedFacts(s.db, k);
    case StopRelease(k) => ReleasedFacts(s.db, s.stops[k].reportId);
    case StopFinish(k) => StopKeepsOthers(s.db, s.stops[k].reportId);
    case Restart => RecoveredRun(s.db, r);
    case _ =>
  }

  /** No event touches a run record in any other way. */
  lemma RunStep(s: System, e: Event, r: Id)
    requires Enabled(s, e)
    ensures Find(Apply(s, e).db.runs, r) == NextRun(s, e, r)
  {
    hide Enabled, Apply, NextRun;
    if OfStart(e) {
      StartRunStep(s, e, r);
    } else {
      OtherRunStep(s, e, r);
    }
  }

  // ----- processes ----------------------------------------------------------------------------------------------

  /** A start's new position; what it picked up on the way stays with it. */
  function NextStart(s: System, e: Event, id: Id): Option<Start>
    requires Enabled(s, e)
  {
    var x := Find(s.starts, id);
    if e.Restart? then None
    else if Mover(e) != Some(id) then x
    else
      match e
      case Admit(_, t, region, queued, local, debug) =>
        Some(Start(t, region, queued, QPending, local, debug, {}, 0, Admitted))
      case Claim(_) => Some(x.value.(pc := if x.value.seen.QPending? then Claimed else Over))
      case ChooseSlaves(_, nodes) => Some(x.value.(nodes := nodes, pc := Chosen))
      case MarkRunning(_) => Some(x.value.(pc := Marked))
      case AddReport(_, r) => Some(x.value.(reportId := r, pc := Added))
      case Bind(_) =>
        Some(x.value.(pc := if x.value.entry.None? || EntryIs(s, x.value.entry.value, QRunning) then Bound else Over))
      case LeaseNodes(_, grants) => Some(x.value.(pc := if AllFree(s, grants) then Ready else LeaseRefused))
      case Launch(_) => Some(x.value.(pc := Launched))
      case RefuseLaunch(_) => Some(x.value.(pc := if x.value.debug then Over else LaunchRefused))
      case MarkStartFailed(_) => Some(x.value.(pc := if x.value.pc.LeaseRefused? then Over else FailureMarked))
      case ReleaseAfterRefusal(_) => Some(x.value.(pc := Over))
      case Abort(_, _) => Some(x.value.(pc := Over))
      case Settle(_) => Some(x.value.(pc := Over))
      case _ => x
  }

  /** No event moves a start in any other way. */
  lemma StartRowStep(s: System, e: Event, id: Id)
    requires Enabled(s, e)
    ensures Find(Apply(s, e).starts, id) == NextStart(s, e, id)
  {
    MoverOfStart(e);
    if OfStart(e) {
      OwnStartStep(s, e, id);
    } else if e.Restart? {
      hide Recovered;
    } else {
      hide Enabled, Apply;
      StartsKept(s, e);
    }
  }

  lemma OwnStartStep(s: System, e: Event, id: Id)
    requires Enabled(s, e) && OfStart(e)
    ensures Find(Apply(s, e).starts, id) == NextStart(s, e, id)
  {
    hide MayChoose, MayAbort, LeasedNodes, CalledBackWith, StartFailed, ReleasedBy, Granted, HasActiveEntry, AllFree, SetCase,
         ClaimedEntry, BoundEntry, DispatcherFree;
    if e.LeaseNodes? {
      FreeIffDisjoint(s, e.grants);
    }
  }

  function NextRunner(s: System, e: Event, r: Id): Option<Runner>
    requires Enabled(s, e)
  {
    var x := Find(s.runners, r);
    match e
    case Launch(id) => if s.starts[id].reportId == r then Some(Runner(s.starts[id].testcase, s.starts[id].debug, Spawned)) else x
    case ProcessStart(k) => if k == r then Some(x.value.(pc := Alive)) else x
    case ProcessExit(k, code, outputFailed, logFailed) =>
      if k == r then Some(x.value.(pc := Exited(code, outputFailed, logFailed))) else x
    case ProcessError(k) => if k == r then Some(x.value.(pc := Crashed)) else x
    case Callback(k) =>
      if k != r then x
      else if x.value.pc.Crashed? then Some(x.value.(pc := CrashReported))
      else Some(x.value.(pc := CalledBack(if CleanExit(x.value) then RunSuccess else RunFailed)))
    case RecordRun(k) => if k == r then Some(x.value.(pc := Recorded)) else x
    case RunnerRelease(k) => if k == r then Some(x.value.(pc := Gone)) else x
    case Restart => None
    case _ => x
  }

  /** No event moves a runner in any other way, and only a launch makes one. */
  lemma RunnerStep(s: System, e: Event, r: Id)
    requires Enabled(s, e)
    ensures Find(Apply(s, e).runners, r) == NextRunner(s, e, r)
  {
    hide MayAdmit, MayChoose, MayAbort, LeasedNodes, CalledBackWith, StartFailed, ReleasedBy, Granted, HasActiveEntry,
         HasRunningReport, SetCase, UserStopped, ScanTimedOut, Recovered, Enqueued, Cancelled;
  }

  function NextStop(s: System, e: Event, k: Id): Option<Stop>
    requires Enabled(s, e)
  {
    var x := Find(s.stops, k);
    match e
    case StopBegin(n, r, byUser) => if n == k then Some(Stop(byUser, r, Began)) else x
    case StopSignal(n) => if n == k then Some(x.value.(pc := Signalled)) else x
    case StopRelease(n) => if n == k then Some(x.value.(pc := LeasesFreed)) else x
    case StopFinish(n) => if n == k then Some(x.value.(pc := Finished)) else x
    case Restart => None
    case _ => x
  }

  lemma StopStep(s: System, e: Event, k: Id)
    requires Enabled(s, e)
    ensures Find(Apply(s, e).stops, k) == NextStop(s, e, k)
  {
    hide MayAdmit, MayChoose, MayAbort, LeasedNodes, CalledBackWith, StartFailed, ReleasedBy, Granted, HasActiveEntry,
         HasRunningReport, SetCase, UserStopped, ScanTimedOut, Recovered, Enqueued, Cancelled, FinalOf;
  }

  // ----- what the rows add up to --------------------------------------------------------------------------------

  /** A request for slaves is granted exactly when none is taken: then each has a lease of its own
      for the report, and the taken nodes are the old ones and these; else nothing changes. */
  lemma GrantTakesItsNodes(s: System, id: Id, grants: map<Id, Id>)
    requires Enabled(s, LeaseNodes(id, grants))
    ensures
      var s', st := Apply(s, LeaseNodes(id, grants)), s.starts[id];
      if forall n | n in st.nodes :: !NodeTaken(s, n) then
        && StartAt(s', id, Ready)
        && (forall n :: NodeTaken(s', n) <==> NodeTaken(s, n) || n in st.nodes)
        && (forall n | n in st.nodes :: exists l :: l in s'.db.leases && s'.db.leases[l] == Lease(st.reportId, n, Leased))
        && (forall l | l in s.db.leases :: l in s'.db.leases && s'.db.leases[l] == s.db.leases[l])
      else StartAt(s', id, LeaseRefused) && s'.db == s.db
  {
    var e := LeaseNodes(id, grants);
    var s', st := Apply(s, e), s.starts[id];
    hide Apply, NodeTaken;
    StartRowStep(s, e, id);
    FreeIffNodesFree(s, grants, st.nodes);
    LeaseWrites(s, e);
    assert forall l | l in grants :: l !in s.db.leases;
    forall l
      ensures Find(s'.db.leases, l) ==
        if l in grants && AllFree(s, grants) then Some(Lease(st.reportId, grants[l], Leased)) else Find(s.db.leases, l)
    {
      LeaseStep(s, e, l);
    }
    if AllFree(s, grants) {
      forall n
        ensures NodeTaken(s', n) <==> NodeTaken(s, n) || n in st.nodes
        ensures n in st.nodes ==> exists l :: l in s'.db.leases && s'.db.leases[l] == Lease(st.reportId, n, Leased)
      {
        TakenAfterGrant(s, s', st.reportId, grants, n);
      }
    } else {
      assert s'.db.leases == s.db.leases by { SameRows(s'.db.leases, s.db.leases); }
    }
  }

  lemma SameRows<V>(a: map<Id, V>, b: map<Id, V>)
    requires forall k :: Find(a, k) == Find(b, k)
    ensures a == b
  {
    assert forall k :: k in a <==> Find(a, k).Some?;
    assert forall k :: k in b <==> Find(b, k).Some?;
    forall k | k in a
      ensures k in b && a[k] == b[k]
    {
      assert Find(a, k) == Find(b, k);
    }
  }

  lemma FreeIffNodesFree(s: System, grants: map<Id, Id>, nodes: set<Id>)
    requires grants.Values == nodes
    ensures AllFree(s, grants) <==> forall n | n in nodes :: !NodeTaken(s, n)
  {
    hide NodeTaken;
    forall n | n in nodes
      ensures exists l :: l in grants && grants[l] == n
    {}
    forall l | l in grants
      ensures grants[l] in nodes
    {}
  }

  lemma TakenAfterGrant(s: System, s': System, report: Id, grants: map<Id, Id>, n: Id)
    requires forall l | l in grants :: l !in s.db.leases
    requires forall l :: Find(s'.db.leases, l) == (if l in grants then Some(Lease(report, grants[l], Leased)) else Find(s.db.leases, l))
    ensures NodeTaken(s', n) <==> NodeTaken(s, n) || n in grants.Values
    ensures n in grants.Values ==> exists l :: l in s'.db.leases && s'.db.leases[l] == Lease(report, n, Leased)
  {
    if n in grants.Values {
      var l :| l in grants && grants[l] == n;
      assert Find(s'.db.leases, l) == Some(Lease(report, n, Leased));
    }
    if NodeTaken(s, n) {
      var l :| l in s.db.leases && s.db.leases[l].status.Leased? && s.db.leases[l].nodeId == n;
      assert Find(s'.db.leases, l) == Find(s.db.leases, l);
    }
    if NodeTaken(s', n) {
      var l :| l in s'.db.leases && s'.db.leases[l].status.Leased? && s'.db.leases[l].nodeId == n;
      assert Find(s'.db.leases, l) == Some(s'.db.leases[l]);
      if l in grants {
        assert grants[l] in grants.Values;
      }
    }
  }

  /** The report whose leases an event gives back. */
  function Releases(s: System, e: Event): Option<Id>
    requires Enabled(s, e)
  {
    match e
    case ReleaseAfterRefusal(id) => Some(s.starts[id].reportId)
    case RunnerRelease(r) => Some(r)
    case StopRelease(k) => Some(s.stops[k].reportId)
    case StopFinish(k) => if s.stops[k].byUser then None else Some(s.stops[k].reportId)
    case _ => None
  }

  /** A lease ends, short of a restart, exactly by a release of its own report, and then it is
      released; no release adds a lease or ends another report's. */
  lemma ReleaseEndsItsLeases(s: System, e: Event, l: Id)
    requires Enabled(s, e) && !e.Restart? && l in s.db.leases
    ensures l in Apply(s, e).db.leases
    ensures s.db.leases[l].status.Leased? && !Apply(s, e).db.leases[l].status.Leased? <==>
      s.db.leases[l].status.Leased? && Releases(s, e) == Some(s.db.leases[l].reportId)
    ensures Releases(s, e).Some? ==>
      Apply(s, e).db.leases[l] == (if s.db.leases[l].status.Leased? && s.db.leases[l].reportId == Releases(s, e).value
                                   then s.db.leases[l].(status := Released) else s.db.leases[l])
    ensures Releases(s, e).Some? ==> Apply(s, e).db.leases.Keys == s.db.leases.Keys
  {
    LeaseStep(s, e, l);
    if e.LeaseNodes? {
      assert l !in e.grants;
    }
    if Releases(s, e).Some? {
      forall k
        ensures k in Apply(s, e).db.leases <==> k in s.db.leases
      {
        LeaseStep(s, e, k);
      }
    }
    hide Apply, AllFree, MayAdmit, MayAbort, MayChoose, HasActiveEntry, HasRunningReport;
  }

  /** A callback on a report that runs brings testcase, report and bound entry to the verdict of the
      exit together; on one that has ended it changes none of them. */
  lemma CallbackBringsTogether(s: System, r: Id)
    requires Inv(s) && Enabled(s, Callback(r))
    ensures r in s.db.reports
    ensures
      var s', t, clean := Apply(s, Callback(r)), s.runners[r].testcase, CleanExit(s.runners[r]);
      if s.db.reports[r].status.RunIng? then
        && r in s'.db.reports && s'.db.reports[r].status == (if clean then RunSuccess else RunFailed)
        && (t in s.db.testcases ==> t in s'.db.testcases && s'.db.testcases[t] == s'.db.reports[r].status)
        && (forall x | x in s.db.testcases && x != t :: x in s'.db.testcases && s'.db.testcases[x] == s.db.testcases[x])
        && (forall q | q in s.db.queue && s.db.queue[q].reportId == r && EntryIs(s, q, QRunning) ::
              EntryIs(s', q, if clean then QSuccess else QFailed))
      else
        && (forall x | x in s.db.testcases :: x in s'.db.testcases && s'.db.testcases[x] == s.db.testcases[x])
        && (forall q | q in s.db.queue :: q in s'.db.queue && s'.db.queue[q] == s.db.queue[q])
        && s'.db.reports == s.db.reports
  {
    var e := Callback(r);
    RunnerHasReport(s, r);
    forall x | x in s.db.testcases
      ensures x in Apply(s, e).db.testcases && Apply(s, e).db.testcases[x] == NextCase(s, e, x)
    {
      CaseStep(s, e, x);
    }
    forall x
      ensures Find(Apply(s, e).db.reports, x) == NextReport(s, e, x)
    {
      ReportRowStep(s, e, x);
    }
    forall q | q in s.db.queue
      ensures q in Apply(s, e).db.queue && Apply(s, e).db.queue[q] == NextEntry(s, e, q)
    {
      EntryStep(s, e, q);
    }
    hide Inv, Apply;
    assert Find(Apply(s, e).db.reports, r) == NextReport(s, e, r);
    if !s.db.reports[r].status.RunIng? {
      SameRows(Apply(s, e).db.reports, s.db.reports);
    }
  }

  // ----- one run per region ---------------------------------------------------------------------------------------

  ghost predicate RegionBusy(s: System, testcase: Id, region: string) {
    exists r :: RunningReport(s, r) && s.db.reports[r].testcase == testcase && s.db.reports[r].region == region
  }

  /** A start may choose slaves exactly when none of them is taken and, in a named region, there is one
      and no report of its testcase runs there; a local one chooses none. */
  lemma ChoosesExactlyWhenFree(s: System, id: Id, nodes: set<Id>)
    requires id in s.starts && s.starts[id].pc == if s.starts[id].entry.Some? then Claimed else Admitted
    ensures Enabled(s, ChooseSlaves(id, nodes)) <==>
      && (forall n | n in nodes :: !NodeTaken(s, n))
      && (if s.starts[id].local then nodes == {}
          else s.starts[id].region != "" ==> nodes != {} && !RegionBusy(s, s.starts[id].testcase, s.starts[id].region))
  {
    forall n
      ensures n in LeasedNodes(s.db) <==> NodeTaken(s, n)
    {}
    assert RunsInRegion(s.db, s.starts[id].testcase, s.starts[id].region) <==>
      RegionBusy(s, s.starts[id].testcase, s.starts[id].region) by {
      BusyIsRunning(s, s.starts[id].testcase, s.starts[id].region);
    }
    hide LeasedNodes, NodeTaken, RunsInRegion, RegionBusy;
  }

  lemma BusyIsRunning(s: System, testcase: Id, region: string)
    ensures RunsInRegion(s.db, testcase, region) <==> RegionBusy(s, testcase, region)
  {
    if RunsInRegion(s.db, testcase, region) {
      var r :| r in s.db.reports && s.db.reports[r].testcase == testcase && s.db.reports[r].region == region &&
               s.db.reports[r].status.RunIng?;
      assert RunningReport(s, r);
    }
  }

  /** One running report per testcase and region. */
  ghost predicate OneRunPerRegion(s: System) {
    forall a, b | RunningReport(s, a) && RunningReport(s, b) && s.db.reports[a].testcase == s.db.reports[b].testcase
      && s.db.reports[a].region == s.db.reports[b].region :: a == b
  }

  /** It is lost exactly when a start adds its report while another one runs: the region was free
      when its slaves were chosen, and is not looked at again. */
  lemma RegionDoubledExactlyBy(s: System, e: Event)
    requires Inv(s) && Enabled(s, e) && OneRunPerRegion(s)
    ensures !OneRunPerRegion(Apply(s, e)) <==>
      e.AddReport? && RegionBusy(s, s.starts[e.start].testcase, s.starts[e.start].region)
  {
    var s' := Apply(s, e);
    AddedIsNew(s, e);
    hide Inv, Enabled, Apply;
    forall r
      ensures Find(s'.db.reports, r) == NextReport(s, e, r)
    {
      ReportRowStep(s, e, r);
    }
    if e.AddReport? && RegionBusy(s, s.starts[e.start].testcase, s.starts[e.start].region) {
      var r :| RunningReport(s, r) && s.db.reports[r].testcase == s.starts[e.start].testcase
        && s.db.reports[r].region == s.starts[e.start].region;
      assert Find(s'.db.reports, r) == Some(s.db.reports[r]) && Find(s'.db.reports, e.report).Some?;
      assert RunningReport(s', r) && RunningReport(s', e.report);
    } else {
      forall a, b | RunningReport(s', a) && RunningReport(s', b) && s'.db.reports[a].testcase == s'.db.reports[b].testcase
        && s'.db.reports[a].region == s'.db.reports[b].region
        ensures a == b
      {
        RanBefore(s, e, a);
        RanBefore(s, e, b);
      }
    }
  }

  lemma AddedIsNew(s: System, e: Event)
    requires Enabled(s, e)
    ensures e.AddReport? ==> e.start in s.starts && e.report !in s.db.reports
  {}

  /** A report that runs after an event ran before it, unless a start has just added it. */
  lemma RanBefore(s: System, e: Event, r: Id)
    requires Enabled(s, e) && RunningReport(Apply(s, e), r) && Find(Apply(s, e).db.reports, r) == NextReport(s, e, r)
    ensures
      var after := Apply(s, e).db.reports[r];
      if e.AddReport? && e.report == r
      then after.testcase == s.starts[e.start].testcase && after.region == s.starts[e.start].region
      else RunningReport(s, r) && s.db.reports[r] == after
  {
    hide Apply, CleanExit, MayAdmit, MayAbort, MayChoose, HasActiveEntry, HasRunningReport;
  }
}
