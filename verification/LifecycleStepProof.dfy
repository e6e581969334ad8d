/** Running, stopping and recovering keep the invariant; so does every event, and hence it
    holds in every reachable state. */
module LifecycleStepProof {
  import opened Options
  import opened ExecutionTables
  import opened CommitFacts
  import opened Lifecycle
  import opened LifecycleInvariant
  import opened LifecycleFrames
  import opened LifecycleSteps
  import opened LifecycleLaunchSteps

  // ----- runners ----------------------------------------------------------------------------------

  /** Runners other than r are where they were. */
  ghost predicate OnlyRunner(a: map<Id, Runner>, b: map<Id, Runner>, r: Id) {
    a.Keys == b.Keys && forall x | x in a && x != r :: b[x] == a[x]
  }

  lemma OtherOwners(s: System, s': System, r: Id, x: Id)
    requires s'.starts == s.starts && OnlyRunner(s.runners, s'.runners, r) && x != r
    ensures LeaseOwned(s, x) ==> LeaseOwned(s', x)
    ensures EntryOwned(s, x) ==> EntryOwned(s', x)
    ensures Unsettled(s, x) ==> Unsettled(s', x)
  {}

  lemma OwnOwners(s: System, s': System, r: Id)
    requires s'.starts == s.starts && OnlyRunner(s.runners, s'.runners, r)
    ensures Unsettled(s, r) ==> Unsettled(s', r)
    ensures LeaseOwned(s, r) && (r in s.runners ==> s.runners[r].pc.Gone? || !s'.runners[r].pc.Gone?) ==> LeaseOwned(s', r)
    ensures EntryOwned(s, r) && (r in s.runners && WillCloseEntry(s.runners[r].pc) ==> WillCloseEntry(s'.runners[r].pc)) ==>
      EntryOwned(s', r)
  {}

  /** A runner or a stop commits something about report r. */
  lemma ReportStep(s: System, s': System, r: Id)
    requires Inv(s) && r in s.db.reports
    requires s'.starts == s.starts && OnlyRunner(s.runners, s'.runners, r)
    requires Closing(s.db.queue, s'.db.queue) && OthersKept(s.db.queue, s'.db.queue, r)
    requires OnlyReport(s.db.reports, s'.db.reports, r) && Freeing(s.db.leases, s'.db.leases)
    requires Leasing(s'.db.leases, r) && LeaseOwned(s, r) ==> LeaseOwned(s', r)
    requires RunsFor(s'.db.queue, r) && EntryExplained(s, r) ==> EntryExplained(s', r)
    ensures Inv(s')
  {
    hide StartsShape, OneLeasePerNode, LeaseOwned, EntryOwned, Unsettled, RunsFor, Leasing, Freeing, Closing,
         OthersKept, LeasesOwned, EntriesOwned, EntryExplained, Compatible, OnlyReport, OnePending, UnboundBeforeRun, BoundOnce;
    OnlyReportKeys(s.db.reports, s'.db.reports, r);
    ClosingKeepsShape(s.db, s'.db);
    ClosingIsCompatible(s.db.queue, s'.db.queue, r);
    forall x | x != r
      ensures LeaseOwned(s, x) ==> LeaseOwned(s', x)
      ensures EntryExplained(s, x) ==> EntryExplained(s', x)
    {
      OtherOwners(s, s', r, x);
      if EntryExplained(s, x) {
        ExplainedElsewhere(s, s', r, x);
      }
    }
    forall x | RunsFor(s'.db.queue, x)
      ensures RunsFor(s.db.queue, x)
    {
      ClosingRuns(s.db.queue, s'.db.queue, x);
    }
    TablesStep(s, s');
  }

  lemma RunnerHasReport(s: System, r: Id)
    requires Inv(s) && r in s.runners
    ensures r in s.db.reports
  {}

  /** A runner moves on with its duties unchanged. */
  lemma RunnerMoveKeeps(s: System, s': System, r: Id, pc: RunnerPc)
    requires Inv(s) && r in s.runners && s'.starts == s.starts && s'.runners == s.runners[r := s.runners[r].(pc := pc)]
    requires s'.db.queue == s.db.queue && s'.db.reports == s.db.reports && s'.db.leases == s.db.leases
    requires !pc.Gone? && (WillCloseEntry(s.runners[r].pc) ==> WillCloseEntry(pc))
    ensures Inv(s')
  {
    hide StartsShape, QueueShape, OneLeasePerNode, LeasesOwned, EntriesOwned, Freeing, Closing, OthersKept, OnlyReport,
         EntryOwned, LeaseOwned, Unsettled, RunsFor, Leasing;
    RunnerHasReport(s, r);
    ClosingRefl(s.db.queue);
    FreeingRefl(s.db.leases);
    OnlyReportRefl(s.db.reports, r);
    OwnOwners(s, s', r);
    ReportStep(s, s', r);
  }

  lemma CallbackKeeps(s: System, r: Id)
    requires Inv(s) && r in s.runners
    ensures Inv(DoCallback(s, r))
  {
    hide StartsShape, QueueShape, OneLeasePerNode, LeasesOwned, EntriesOwned, Freeing, Closing, OthersKept, OnlyReport,
         EntryOwned, LeaseOwned, Unsettled, RunsFor, Leasing, CalledBackWith, FinalOf;
    RunnerHasReport(s, r);
    var s', final := DoCallback(s, r), FinalOf(s.runners[r]);
    CalledBackFacts(s.db, s.runners[r].testcase, r, final);
    ClosedByCallback(s.db, s.runners[r].testcase, r, final);
    FreeingRefl(s.db.leases);
    OwnOwners(s, s', r);
    ReportStep(s, s', r);
  }

  lemma RunnerReleaseKeeps(s: System, r: Id)
    requires Inv(s) && r in s.runners && (s.runners[r].pc.Recorded? || s.runners[r].pc.CrashReported?)
    ensures Inv(RunnerAt(s, r, Gone).(db := ReleasedBy(s.db, r)))
  {
    hide StartsShape, QueueShape, OneLeasePerNode, LeasesOwned, EntriesOwned, Freeing, Closing, OthersKept, OnlyReport,
         EntryOwned, LeaseOwned, Unsettled, RunsFor, Leasing, ReleasedBy;
    RunnerHasReport(s, r);
    var s' := RunnerAt(s, r, Gone).(db := ReleasedBy(s.db, r));
    ReleasedFacts(s.db, r);
    ReleasedHasNone(s'.db.leases, r);
    ClosingRefl(s.db.queue);
    OnlyReportRefl(s.db.reports, r);
    OwnOwners(s, s', r);
    ReportStep(s, s', r);
  }

  // ----- stops --------------------------------------------------------------------------------------

  lemma StopReleaseKeeps(s: System, k: Id)
    requires Inv(s) && k in s.stops
    ensures Inv(StopAt(s, k, LeasesFreed).(db := ReleasedBy(s.db, s.stops[k].reportId)))
  {
    hide StartsShape, QueueShape, OneLeasePerNode, LeasesOwned, EntriesOwned, Freeing, LeaseOwned, RunsFor, Leasing,
         EntryOwned, Unsettled, ReleasedBy, Compatible;
    var s' := StopAt(s, k, LeasesFreed).(db := ReleasedBy(s.db, s.stops[k].reportId));
    ReleasedFacts(s.db, s.stops[k].reportId);
    QueueShapeSame(s.db, s'.db);
    CompatibleRefl(s.db.queue);
    forall x
      ensures LeaseOwned(s, x) ==> LeaseOwned(s', x)
      ensures EntryExplained(s, x) ==> EntryExplained(s', x)
    {
      SameOwners(s, s', x);
    }
    TablesStep(s, s');
  }

  lemma OnlyRunnerRefl(runners: map<Id, Runner>, r: Id)
    ensures OnlyRunner(runners, runners, r)
  {}

  lemma StopFinishKeeps(s: System, k: Id)
    requires Inv(s) && k in s.stops && s.stops[k].reportId in s.db.reports
    ensures Inv(DoStopFinish(s, k))
  {
    hide StartsShape, QueueShape, OneLeasePerNode, LeasesOwned, EntriesOwned, Freeing, Closing, OthersKept, OnlyReport,
         EntryOwned, LeaseOwned, Unsettled, RunsFor, Leasing, UserStopped, ScanTimedOut, OnlyRunner, NoneRunningFor;
    var r, s' := s.stops[k].reportId, DoStopFinish(s, k);
    OnlyRunnerRefl(s.runners, r);
    SameOwners(s, s', r);
    if s.stops[k].byUser {
      UserStoppedFacts(s.db, r);
      NoneRunningRuns(s'.db.queue, r);
      FreeingRefl(s.db.leases);
    } else {
      TimedOutFacts(s.db, r);
      ClosingRefl(s.db.queue);
    }
    OnlyReportKeys(s.db.reports, s'.db.reports, r);
    ReportStep(s, s', r);
  }

  lemma RestartKeeps(s: System)
    requires Inv(s)
    ensures Inv(System(Recovered(s.db), map[], map[], map[]))
  {
    hide Recovered, QueueShape, Closing, LeasesOwned, EntriesOwned;
    RecoveredFacts(s.db);
    var s' := System(Recovered(s.db), map[], map[], map[]);
    ClosingKeepsShape(s.db, s'.db);
    QuietHasNoDuties(s');
  }

  lemma QuietHasNoDuties(s: System)
    requires Quiet(s.db) && s.starts == map[]
    ensures OneLeasePerNode(s.db.leases) && LeasesOwned(s) && EntriesOwned(s)
  {}

  // ----- every event ----------------------------------------------------------------------------------

  lemma RecordRunKeeps(s: System, r: Id)
    requires Inv(s) && r in s.runners && s.runners[r].pc.CalledBack?
    ensures Inv(DoRecordRun(s, r))
  {
    hide Inv;
    RunnerMoveKeeps(s, DoRecordRun(s, r), r, Recorded);
  }

  predicate OfStart(e: Event) {
    || e.Admit? || e.Claim? || e.ChooseSlaves? || e.MarkRunning? || e.AddReport? || e.Bind? || e.LeaseNodes?
    || e.Launch? || e.RefuseLaunch? || e.MarkStartFailed? || e.ReleaseAfterRefusal? || e.Abort? || e.Settle?
  }

  lemma StartStepInv(s: System, e: Event)
    requires Inv(s) && Enabled(s, e) && OfStart(e)
    ensures Inv(Apply(s, e))
  {
    hide Inv, MayAdmit, MayChoose, MayAbort, HasActiveEntry, HasRunningReport, LeasedNodes,
         DoAdmit, DoClaim, DoChooseSlaves, DoMarkRunning, DoAddReport, DoBind, DoLeaseNodes, DoLaunch, DoRefuseLaunch,
         DoMarkStartFailed, DoReleaseAfterRefusal, Aborted, Settled;
    match e
    case Admit(_, _, _, _, _, _) => AdmitKeeps(s, e);
    case Claim(id) => ClaimKeeps(s, id);
    case ChooseSlaves(id, nodes) => ChooseKeeps(s, id, nodes);
    case MarkRunning(id) => MarkRunningKeeps(s, id);
    case AddReport(id, r) => AddReportKeeps(s, id, r);
    case Bind(id) => BindKeeps(s, id);
    case LeaseNodes(id, grants) => LeaseKeeps(s, id, grants);
    case Launch(id) => LaunchKeeps(s, id);
    case RefuseLaunch(id) => RefuseLaunchKeeps(s, id);
    case MarkStartFailed(id) => MarkStartFailedKeeps(s, id);
    case ReleaseAfterRefusal(id) => ReleaseAfterRefusalKeeps(s, id);
    case Abort(id, unexpected) => AbortKeeps(s, id, unexpected);
    case Settle(id) => SettleKeeps(s, id);
  }

  lemma StepInv(s: System, e: Event)
    requires Inv(s) && Enabled(s, e)
    ensures Inv(Apply(s, e))
  {
    if OfStart(e) {
      hide Inv, Enabled, Apply;
      StartStepInv(s, e);
    } else {
      OtherStepInv(s, e);
    }
  }

  lemma OtherStepInv(s: System, e: Event)
    requires Inv(s) && Enabled(s, e) && !OfStart(e)
    ensures Inv(Apply(s, e))
  {
    hide Inv, HasActiveEntry, HasRunningReport, DoCallback, DoRecordRun, DoStopFinish, Enqueued, Cancelled, ReleasedBy,
         Recovered;
    match e
    case Enqueue(q, t, region) => EnqueueKeeps(s, q, t, region);
    case Cancel(q) => CancelKeeps(s, q);
    case ProcessStart(r) => RunnerMoveKeeps(s, Apply(s, e), r, Alive);
    case ProcessExit(r, code, outputFailed, logFailed) => RunnerMoveKeeps(s, Apply(s, e), r, Exited(code, outputFailed, logFailed));
    case ProcessError(r) => RunnerMoveKeeps(s, Apply(s, e), r, Crashed);
    case Callback(r) => CallbackKeeps(s, r);
    case RecordRun(r) => RecordRunKeeps(s, r);
    case RunnerRelease(r) => RunnerReleaseKeeps(s, r);
    case StopBegin(_, _, _) => SameCoreKeeps(s, Apply(s, e));
    case StopSignal(_) => SameCoreKeeps(s, Apply(s, e));
    case StopRelease(k) => StopReleaseKeeps(s, k);
    case StopFinish(k) => StopFinishKeeps(s, k);
    case StopCleanup(_) => SameCoreKeeps(s, Apply(s, e));
    case Restart => RestartKeeps(s);
  }

  lemma {:induction false} RunInv(states: seq<System>, events: seq<Event>, i: nat)
    requires IsRun(states, events) && Init(states[0]) && i <= |events|
    ensures Inv(states[i])
  {
    hide Inv, Apply, Enabled;
    if i == 0 {
      InitInv(states[0]);
    } else {
      RunInv(states, events, i - 1);
      StepInv(states[i - 1], events[i - 1]);
    }
  }

  /** The invariant holds in every reachable state of every interleaving. */
  lemma ReachableInv(s: System)
    requires Reachable(s)
    ensures Inv(s)
  {
    hide Inv, Init, Enabled, Apply;
    var states, events :| IsRun(states, events) && Init(states[0]) && states[|events|] == s;
    RunInv(states, events, |events|);
  }
}
