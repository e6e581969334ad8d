/** What whole runs of the lifecycle can never undo: how entries, reports and leases advance
    from any state of a run to any later one, and the only events behind each verdict. */
module LifecycleHistory {
  import opened Options
  import opened ExecutionTables
  import opened CommitFacts
  import opened Lifecycle
  import opened LifecycleInvariant
  import opened LifecycleSteps
  import opened LifecycleLaunchSteps
  import opened LifecycleStepProof

  // ----- one step -----------------------------------------------------------------------------------

  /** An entry keeps its testcase, its region and its report once bound; it never becomes
      pending again, and only a pending one is canceled. */
  ghost predicate EntriesAdvance(a: map<Id, Entry>, b: map<Id, Entry>) {
    && a.Keys <= b.Keys
    && forall q | q in a ::
         && b[q].testcase == a[q].testcase && b[q].region == a[q].region
         && (a[q].reportId != 0 ==> b[q].reportId == a[q].reportId)
         && (b[q].status.QPending? ==> b[q] == a[q])
         && (b[q].status.QCanceled? ==> a[q].status.QCanceled? || a[q].status.QPending?)
  }

  /** A report keeps its testcase and region; one that has ended never runs again, and a failed
      one stays failed whoever writes to it. */
  ghost predicate ReportsAdvance(a: map<Id, Report>, b: map<Id, Report>) {
    && a.Keys <= b.Keys
    && forall r | r in a ::
         && b[r].testcase == a[r].testcase && b[r].region == a[r].region
         && (b[r].status.RunIng? ==> a[r].status.RunIng?)
         && (a[r].status.RunFailed? ==> b[r].status.RunFailed?)
         && (a[r].status.RunSuccess? ==> b[r].status.RunSuccess? || b[r].status.RunFailed?)
  }

  /** A lease row keeps its report and node, and once it has ended it never changes. */
  ghost predicate LeasesAdvance(a: map<Id, Lease>, b: map<Id, Lease>) {
    && a.Keys <= b.Keys
    && forall l | l in a ::
         && b[l].reportId == a[l].reportId && b[l].nodeId == a[l].nodeId
         && (!a[l].status.Leased? ==> b[l] == a[l])
  }

  ghost predicate Advances(a: Db, b: Db) {
    EntriesAdvance(a.queue, b.queue) && ReportsAdvance(a.reports, b.reports) && LeasesAdvance(a.leases, b.leases)
  }

  lemma AdvancesRefl(db: Db)
    ensures Advances(db, db)
  {}

  lemma AdvancesTrans(a: Db, b: Db, c: Db)
    requires Advances(a, b) && Advances(b, c)
    ensures Advances(a, c)
  {
    assert EntriesAdvance(a.queue, c.queue);
    assert ReportsAdvance(a.reports, c.reports);
    assert LeasesAdvance(a.leases, c.leases);
  }

  lemma ClosingAdvances(a: map<Id, Entry>, b: map<Id, Entry>)
    requires Closing(a, b)
    ensures EntriesAdvance(a, b)
  {}

  lemma FreeingAdvances(a: map<Id, Lease>, b: map<Id, Lease>)
    requires Freeing(a, b)
    ensures LeasesAdvance(a, b)
  {}

  /** One report ended, if it had not already. */
  lemma OneReportAdvances(a: map<Id, Report>, b: map<Id, Report>, r: Id)
    requires OnlyReport(a, b, r)
    requires r in a && b[r] != a[r] ==> b[r].status.RunFailed? || (a[r].status.RunIng? && b[r].status.RunSuccess?)
    ensures ReportsAdvance(a, b)
  {}

  lemma StartStepAdvances(s: System, e: Event)
    requires Inv(s) && Enabled(s, e) && OfStart(e)
    ensures Advances(s.db, Apply(s, e).db)
  {
    hide QueueShape, StartsShape, LeasesOwned, EntriesOwned, OneLeasePerNode, MayAdmit, MayChoose, MayAbort, Granted,
         CalledBackWith, StartFailed, ReleasedBy, Aborted, Settled, EntriesAdvance, ReportsAdvance, LeasesAdvance,
         Closing, Freeing, OnlyReport, OthersKept, NoneRunningFor, RunsFor;
    AdvancesRefl(s.db);
    match e
    case Admit(_, _, _, _, _, _) =>
    case Claim(id) => ClaimAdvances(s.db, s.starts[id].entry.value);
    case ChooseSlaves(id, nodes) =>
    case MarkRunning(id) =>
    case AddReport(id, r) => AddReportAdvances(s, id, r);
    case Bind(id) => BindAdvances(s, id);
    case LeaseNodes(id, grants) => GrantedAdvances(s.db, s.starts[id].reportId, grants);
    case Launch(id) =>
    case RefuseLaunch(id) => CalledBackAdvances(s.db, s.starts[id].testcase, s.starts[id].reportId, RunFailed);
    case MarkStartFailed(id) => StartFailedAdvances(s.db, s.starts[id].testcase, s.starts[id].reportId, s.starts[id].entry.Some?);
    case ReleaseAfterRefusal(id) => ReleasedAdvances(s.db, s.starts[id].reportId);
    case Abort(id, unexpected) =>
      AbortedFacts(s, id, unexpected);
      ClosingAdvances(s.db.queue, Aborted(s, id, unexpected).db.queue);
    case Settle(id) =>
      SettledFacts(s, id);
      ClosingAdvances(s.db.queue, Settled(s, id).db.queue);
  }

  lemma ClaimAdvances(db: Db, q: Id)
    requires q in db.queue
    ensures EntriesAdvance(db.queue, ClaimedEntry(db, q).queue)
  {}

  lemma AddReportAdvances(s: System, id: Id, r: Id)
    requires id in s.starts && r !in s.db.reports
    ensures ReportsAdvance(s.db.reports, DoAddReport(s, id, r).db.reports)
  {}

  lemma BindAdvances(s: System, id: Id)
    requires Inv(s) && StartAt(s, id, Added) && (s.starts[id].entry.Some? ==> s.starts[id].entry.value in s.db.queue)
    ensures EntriesAdvance(s.db.queue, DoBind(s, id).db.queue)
  {
    hide StartsShape, QueueShape, LeasesOwned, EntriesOwned;
    StartIsOk(s, id);
  }

  lemma GrantedAdvances(db: Db, report: Id, grants: map<Id, Id>)
    requires grants.Keys !! db.leases.Keys
    ensures LeasesAdvance(db.leases, Granted(db, report, grants).leases)
    ensures Granted(db, report, grants) == db.(leases := Granted(db, report, grants).leases)
  {}

  lemma CalledBackAdvances(db: Db, testcase: Id, report: Id, final: CaseStatus)
    requires IsFinal(final)
    ensures Advances(db, CalledBackWith(db, testcase, report, final))
  {
    hide CalledBackWith, EntriesAdvance, ReportsAdvance, Closing, OthersKept;
    var d := CalledBackWith(db, testcase, report, final);
    CalledBackFacts(db, testcase, report, final);
    ClosingAdvances(db.queue, d.queue);
    OneReportAdvances(db.reports, d.reports, report);
    AdvancesRefl(db);
  }

  lemma StartFailedAdvances(db: Db, testcase: Id, report: Id, queued: bool)
    ensures Advances(db, StartFailed(db, testcase, report, queued))
  {
    hide StartFailed, EntriesAdvance, ReportsAdvance, Closing, OthersKept, NoneRunningFor;
    var d := StartFailed(db, testcase, report, queued);
    StartFailedFacts(db, testcase, report, queued);
    ClosingAdvances(db.queue, d.queue);
    OneReportAdvances(db.reports, d.reports, report);
  }

  lemma ReleasedAdvances(db: Db, report: Id)
    ensures Advances(db, ReleasedBy(db, report))
  {
    hide ReleasedBy, Freeing, EntriesAdvance, ReportsAdvance, LeasesAdvance;
    AdvancesRefl(db);
    ReleasedFacts(db, report);
    FreeingAdvances(db.leases, ReleasedBy(db, report).leases);
  }

  lemma StopAdvances(db: Db, r: Id)
    requires r in db.reports
    ensures Advances(db, UserStopped(db, r)) && Advances(db, ScanTimedOut(db, r))
  {
    hide UserStopped, ScanTimedOut, EntriesAdvance, ReportsAdvance, LeasesAdvance, Closing, Freeing, OthersKept, NoneRunningFor;
    AdvancesRefl(db);
    UserStoppedFacts(db, r);
    TimedOutFacts(db, r);
    var u, t := UserStopped(db, r), ScanTimedOut(db, r);
    ClosingAdvances(db.queue, u.queue);
    OneReportAdvances(db.reports, u.reports, r);
    OneReportAdvances(db.reports, t.reports, r);
    FreeingAdvances(db.leases, t.leases);
  }

  lemma RecoveredAdvances(db: Db)
    ensures Advances(db, Recovered(db))
  {
    hide Recovered, Closing, Freeing, EntriesAdvance, LeasesAdvance;
    RecoveredFacts(db);
    ClosingAdvances(db.queue, Recovered(db).queue);
    FreeingAdvances(db.leases, Recovered(db).leases);
  }

  lemma EnqueueAdvances(db: Db, q: Id, testcase: Id, region: string)
    ensures q !in db.queue ==> Advances(db, Enqueued(db, q, testcase, region))
    ensures q in db.queue && db.queue[q].status.QPending? ==> Advances(db, Cancelled(db, q))
  {}

  /** Every event only advances the tables. */
  lemma StepAdvances(s: System, e: Event)
    requires Inv(s) && Enabled(s, e)
    ensures Advances(s.db, Apply(s, e).db)
  {
    if OfStart(e) {
      hide Inv, Enabled, Apply, Advances;
      StartStepAdvances(s, e);
    } else {
      hide Inv, HasActiveEntry, HasRunningReport, CalledBackWith, UserStopped, ScanTimedOut, Enqueued, Cancelled, ReleasedBy,
           Recovered, EntriesAdvance, ReportsAdvance, LeasesAdvance, FinalOf;
      AdvancesRefl(s.db);
      match e
      case Enqueue(q, t, region) => EnqueueAdvances(s.db, q, t, region);
      case Cancel(q) => EnqueueAdvances(s.db, q, 0, "");
      case Callback(r) => CalledBackAdvances(s.db, s.runners[r].testcase, r, FinalOf(s.runners[r]));
      case RunnerRelease(r) => ReleasedAdvances(s.db, r);
      case StopRelease(k) => ReleasedAdvances(s.db, s.stops[k].reportId);
      case StopFinish(k) => StopAdvances(s.db, s.stops[k].reportId);
      case Restart => RecoveredAdvances(s.db);
      case _ =>
    }
  }

  // ----- whole runs -----------------------------------------------------------------------------------

  /** From any state of a run to any later one: terminal entries stay terminal, failed reports
      stay failed, ended reports never run again, ended leases never change. */
  lemma {:induction false} RunsAdvance(states: seq<System>, events: seq<Event>, i: nat, j: nat)
    requires IsRun(states, events) && Init(states[0]) && i <= j <= |events|
    ensures Advances(states[i].db, states[j].db)
    decreases j
  {
    hide Inv, Apply, Enabled, Advances, Init;
    if i == j {
      AdvancesRefl(states[i].db);
    } else {
      RunsAdvance(states, events, i, j - 1);
      RunInv(states, events, j - 1);
      StepAdvances(states[j - 1], events[j - 1]);
      AdvancesTrans(states[i].db, states[j - 1].db, states[j].db);
    }
  }

  /** In every reachable state a node is leased at most once, and a lease is active only while
      its start is between lease and launch or its runner has not finished. */
  lemma LeasesAreSafe(s: System)
    requires Reachable(s)
    ensures forall a, b | a in s.db.leases && b in s.db.leases && s.db.leases[a].status.Leased?
      && s.db.leases[b].status.Leased? && s.db.leases[a].nodeId == s.db.leases[b].nodeId :: a == b
    ensures forall l | l in s.db.leases && s.db.leases[l].status.Leased? ::
      LeaseOwned(s, s.db.leases[l].reportId) && s.db.leases[l].reportId in s.db.reports
    ensures (forall id | id in s.starts :: s.starts[id].pc.Over?) && (forall r | r in s.runners :: s.runners[r].pc.Gone?) ==>
      LeasedNodes(s.db) == {}
  {
    hide QueueShape, StartsShape, EntriesOwned, Reachable;
    ReachableInv(s);
    forall l | l in s.db.leases && s.db.leases[l].status.Leased?
      ensures LeaseOwned(s, s.db.leases[l].reportId) && s.db.leases[l].reportId in s.db.reports
    {
      assert Leasing(s.db.leases, s.db.leases[l].reportId);
    }
  }

  /** In every reachable state: one pending entry per testcase and region, no report on an entry
      that waits or was canceled, and no report on two entries. */
  lemma QueueIsSafe(s: System)
    requires Reachable(s)
    ensures forall p, q | p in s.db.queue && q in s.db.queue && s.db.queue[p].status.QPending? && s.db.queue[q].status.QPending?
      && s.db.queue[p].testcase == s.db.queue[q].testcase && s.db.queue[p].region == s.db.queue[q].region :: p == q
    ensures forall q | q in s.db.queue && (s.db.queue[q].status.QPending? || s.db.queue[q].status.QCanceled?) ::
      s.db.queue[q].reportId == 0
    ensures forall p, q | p in s.db.queue && q in s.db.queue && s.db.queue[p].reportId != 0
      && s.db.queue[p].reportId == s.db.queue[q].reportId :: p == q
  {
    hide StartsShape, EntriesOwned, Reachable, OneLeasePerNode, LeasesOwned;
    ReachableInv(s);
  }

  // ----- the verdicts -----------------------------------------------------------------------------------

  predicate HasStatus(s: System, r: Id, status: CaseStatus) { r in s.db.reports && s.db.reports[r].status == status }

  /** The process exited with 0, printed no failure, and a debug log holds no error. */
  predicate CleanExit(runner: Runner) {
    runner.pc.Exited? && runner.pc.exitCode == 0 && !runner.pc.outputFailed && (runner.debug ==> !runner.pc.logFailed)
  }

  predicate WritesReports(e: Event) {
    e.AddReport? || e.RefuseLaunch? || e.MarkStartFailed? || e.Callback? || e.StopFinish? || e.Restart?
  }

  lemma OtherEventsKeepReports(s: System, e: Event)
    requires Inv(s) && Enabled(s, e) && !WritesReports(e)
    ensures Apply(s, e).db.reports == s.db.reports
  {
    hide Inv, Enabled, Apply;
    if OfStart(e) {
      StartsKeepReports(s, e);
    } else {
      OtherProcessesKeepReports(s, e);
    }
  }

  lemma StartsKeepReports(s: System, e: Event)
    requires Enabled(s, e) && !WritesReports(e) && OfStart(e)
    ensures Apply(s, e).db.reports == s.db.reports
  {
    hide MayAdmit, MayChoose, MayAbort, ReleasedBy, Granted, Settled, Aborted, DoClaim, DoBind, DoLaunch, LeasedNodes, Freeing;
    match e
    case Claim(id) => assert DoClaim(s, id).db.reports == s.db.reports by { ClaimAndBindKeepReports(s, id); }
    case Bind(id) => assert DoBind(s, id).db.reports == s.db.reports by { ClaimAndBindKeepReports(s, id); }
    case LeaseNodes(id, grants) => GrantedOnlyLeases(s.db, s.starts[id].reportId, grants);
    case Launch(id) => LaunchAndEndKeepReports(s, id, false);
    case ReleaseAfterRefusal(id) => ReleasedFacts(s.db, s.starts[id].reportId);
    case Abort(id, unexpected) => LaunchAndEndKeepReports(s, id, unexpected);
    case Settle(id) => LaunchAndEndKeepReports(s, id, false);
    case _ =>
  }

  lemma ClaimAndBindKeepReports(s: System, id: Id)
    requires id in s.starts && (s.starts[id].entry.Some? ==> s.starts[id].entry.value in s.db.queue)
    ensures s.starts[id].entry.Some? ==> DoClaim(s, id).db.reports == s.db.reports
    ensures DoBind(s, id).db.reports == s.db.reports
  {}

  lemma LaunchAndEndKeepReports(s: System, id: Id, unexpected: bool)
    requires id in s.starts
    ensures DoLaunch(s, id).db.reports == Aborted(s, id, unexpected).db.reports == Settled(s, id).db.reports == s.db.reports
  {}

  lemma OtherProcessesKeepReports(s: System, e: Event)
    requires Enabled(s, e) && !WritesReports(e) && !OfStart(e)
    ensures Apply(s, e).db.reports == s.db.reports
  {
    hide HasActiveEntry, HasRunningReport, ReleasedBy, Freeing, Cancelled, Enqueued;
    match e
    case Enqueue(q, t, region) => QueueWritesKeepReports(s.db, q, t, region);
    case Cancel(q) => QueueWritesKeepReports(s.db, q, 0, "");
    case RunnerRelease(k) => ReleasedFacts(s.db, k);
    case StopRelease(k) => ReleasedFacts(s.db, s.stops[k].reportId);
    case _ =>
  }

  lemma QueueWritesKeepReports(db: Db, q: Id, testcase: Id, region: string)
    ensures Enqueued(db, q, testcase, region).reports == db.reports
    ensures q in db.queue ==> Cancelled(db, q).reports == db.reports
  {}

  /** A report becomes successful exactly when a clean exit is called back while it still runs. */
  lemma SuccessOnlyByCallback(s: System, e: Event, r: Id)
    requires Inv(s) && Enabled(s, e)
    ensures !HasStatus(s, r, RunSuccess) && HasStatus(Apply(s, e), r, RunSuccess) <==>
      e == Callback(r) && HasStatus(s, r, RunIng) && CleanExit(s.runners[r])
  {
    if WritesReports(e) {
      WritersOfSuccess(s, e, r);
    } else {
      hide Inv, Enabled, Apply;
      OtherEventsKeepReports(s, e);
    }
  }

  lemma WritersOfSuccess(s: System, e: Event, r: Id)
    requires Enabled(s, e) && WritesReports(e)
    ensures !HasStatus(s, r, RunSuccess) && HasStatus(Apply(s, e), r, RunSuccess) <==>
      e == Callback(r) && HasStatus(s, r, RunIng) && CleanExit(s.runners[r])
  {
    hide CalledBackWith, StartFailed, UserStopped, ScanTimedOut, Recovered, Closing, OthersKept, NoneRunningFor, Freeing, Quiet;
    match e
    case AddReport(_, _) =>
    case RefuseLaunch(id) => CalledBackFacts(s.db, s.starts[id].testcase, s.starts[id].reportId, RunFailed);
    case MarkStartFailed(id) => StartFailedFacts(s.db, s.starts[id].testcase, s.starts[id].reportId, s.starts[id].entry.Some?);
    case Callback(k) => CalledBackFacts(s.db, s.runners[k].testcase, k, FinalOf(s.runners[k]));
    case StopFinish(k) => UserStoppedFacts(s.db, s.stops[k].reportId); TimedOutFacts(s.db, s.stops[k].reportId);
    case Restart => RecoveredFacts(s.db);
  }

  /** A report comes to run exactly when a start creates it. */
  lemma RunningOnlyFromCreation(s: System, e: Event, r: Id)
    requires Inv(s) && Enabled(s, e)
    ensures !HasStatus(s, r, RunIng) && HasStatus(Apply(s, e), r, RunIng) <==> e.AddReport? && e.report == r
  {
    hide Inv, Enabled, Apply, EntriesAdvance, LeasesAdvance;
    StepAdvances(s, e);
    if r !in s.db.reports {
      NewReports(s, e, r);
    } else if e.AddReport? && e.report == r {
      AddsNew(s, e);
    }
  }

  lemma AddsNew(s: System, e: Event)
    requires Enabled(s, e) && e.AddReport?
    ensures e.report !in s.db.reports
  {}

  lemma NewReports(s: System, e: Event, r: Id)
    requires Inv(s) && Enabled(s, e) && r !in s.db.reports
    ensures r in Apply(s, e).db.reports <==> e.AddReport? && e.report == r
    ensures e.AddReport? && e.report == r ==> Apply(s, e).db.reports[r].status.RunIng?
  {
    if WritesReports(e) {
      NewWrittenReports(s, e, r);
    } else {
      hide Inv, Enabled, Apply;
      OtherEventsKeepReports(s, e);
    }
  }

  lemma NewWrittenReports(s: System, e: Event, r: Id)
    requires Enabled(s, e) && WritesReports(e) && r !in s.db.reports
    ensures r in Apply(s, e).db.reports <==> e.AddReport? && e.report == r
    ensures e.AddReport? && e.report == r ==> Apply(s, e).db.reports[r].status.RunIng?
  {
    hide CalledBackWith, StartFailed, UserStopped, ScanTimedOut, Recovered, Closing, OthersKept, NoneRunningFor, Freeing,
         Quiet, FinalOf;
    match e
    case AddReport(_, _) =>
    case RefuseLaunch(id) => CalledBackFacts(s.db, s.starts[id].testcase, s.starts[id].reportId, RunFailed);
    case MarkStartFailed(id) => StartFailedFacts(s.db, s.starts[id].testcase, s.starts[id].reportId, s.starts[id].entry.Some?);
    case Callback(k) => CalledBackFacts(s.db, s.runners[k].testcase, k, FinalOf(s.runners[k]));
    case StopFinish(k) => UserStoppedFacts(s.db, s.stops[k].reportId); TimedOutFacts(s.db, s.stops[k].reportId);
    case Restart => RecoveredFacts(s.db);
  }
}
