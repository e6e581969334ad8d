/** The execution lifecycle as a state machine over the shared tables.

    A start (`_run_testcase_now` or `debug_testcase`), a runner (`_run_and_callback`) and a
    stop (user or timeout) each carry a program counter; every event is one commit, and events
    of different processes interleave freely. */
module Lifecycle {
  import opened Options
  import opened ExecutionTables

  /** Where a start is. `Refused...` positions owe the writes of the failure path. */
  datatype StartPc =
    | Admitted        // past the status checks
    | Claimed         // its queue entry is running
    | Chosen          // slaves picked
    | Marked          // testcase set to running
    | Added           // report created
    | Bound           // report bound to the entry, or no entry
    | LeaseRefused    // a slave was taken meanwhile
    | Ready           // slaves leased
    | LaunchRefused   // the run record could not be created
    | FailureMarked   // failure written, leases still to release
    | Launched        // runner created
    | Over

  /** `local` starts use no slave: initialisation testcases and debug runs. `seen` is the status
      of the entry when the dispatcher refreshed its copy, which the session keeps for the claim. */
  datatype Start = Start(
    testcase: Id, region: string, entry: Option<Id>, seen: QueueStatus, local: bool, debug: bool,
    nodes: set<Id>, reportId: Id, pc: StartPc)

  datatype RunnerPc =
    | Spawned
    | Alive
    | Exited(exitCode: int, outputFailed: bool, logFailed: bool)
    | Crashed
    | CalledBack(final: CaseStatus)
    | CrashReported
    | Recorded
    | Gone

  datatype Runner = Runner(testcase: Id, debug: bool, pc: RunnerPc)

  datatype StopPc = Began | Signalled | LeasesFreed | Finished

  datatype Stop = Stop(byUser: bool, reportId: Id, pc: StopPc)

  /** Runners are registered under their report's id. */
  datatype System = System(db: Db, starts: map<Id, Start>, runners: map<Id, Runner>, stops: map<Id, Stop>)

  datatype Event =
    | Enqueue(entry: Id, testcase: Id, region: string)
    | Cancel(entry: Id)
    | Admit(start: Id, testcase: Id, region: string, queued: Option<Id>, local: bool, debug: bool)
    | Claim(start: Id)
    | ChooseSlaves(start: Id, nodes: set<Id>)
    | MarkRunning(start: Id)
    | AddReport(start: Id, report: Id)
    | Bind(start: Id)
    | LeaseNodes(start: Id, grants: map<Id, Id>)
    | Launch(start: Id)
    | RefuseLaunch(start: Id)
    | MarkStartFailed(start: Id)
    | ReleaseAfterRefusal(start: Id)
    | Abort(start: Id, unexpected: bool)
    | Settle(start: Id)
    | ProcessStart(report: Id)
    | ProcessExit(report: Id, exitCode: int, outputFailed: bool, logFailed: bool)
    | ProcessError(report: Id)
    | Callback(report: Id)
    | RecordRun(report: Id)
    | RunnerRelease(report: Id)
    | StopBegin(stop: Id, report: Id, byUser: bool)
    | StopSignal(stop: Id)
    | StopRelease(stop: Id)
    | StopFinish(stop: Id)
    | StopCleanup(testcase: Id)
    | Restart

  // ----- guards ----------------------------------------------------------------------------

  predicate StartAt(s: System, start: Id, pc: StartPc) { start in s.starts && s.starts[start].pc == pc }

  /** The single dispatcher starts one entry at a time. */
  predicate DispatcherFree(s: System) {
    forall id | id in s.starts && s.starts[id].entry.Some? :: s.starts[id].pc.Over?
  }

  /** A new start's checks on the testcase and on its queue entry. */
  predicate MayAdmit(s: System, e: Event)
    requires e.Admit?
  {
    && e.start !in s.starts
    && e.testcase in s.db.testcases
    && (if e.debug then e.queued.None? && e.local
        else
          && !s.db.testcases[e.testcase].RunIng?
          && (s.db.testcases[e.testcase].RunWaiting? && e.queued.None? ==>
                !HasActiveEntry(s.db, e.testcase, e.region)))
    && (e.queued.Some? ==>
          && e.queued.value in s.db.queue
          && s.db.queue[e.queued.value].testcase == e.testcase
          && s.db.queue[e.queued.value].region == e.region
          && s.db.queue[e.queued.value].status.QPending?
          && DispatcherFree(s))
  }

  /** Free slaves only, none for a local start; in a named region at least one, and no running report. */
  predicate MayChoose(s: System, st: Start, nodes: set<Id>) {
    && (if st.entry.Some? then st.pc.Claimed? else st.pc.Admitted?)
    && nodes !! LeasedNodes(s.db)
    && (st.local ==> nodes == {})
    && (st.region != "" && !st.local ==> nodes != {} && !RunsInRegion(s.db, st.testcase, st.region))
  }

  /** An exception raised before a report exists. */
  predicate MayAbort(st: Start) { st.pc.Admitted? || st.pc.Claimed? || st.pc.Chosen? || st.pc.Marked? }

  predicate Enabled(s: System, e: Event) {
    match e
    case Enqueue(q, t, region) => q !in s.db.queue && t in s.db.testcases && !HasActiveEntry(s.db, t, region)
    case Cancel(q) => q in s.db.queue && s.db.queue[q].status.QPending?
    case Admit(_, _, _, _, _, _) => MayAdmit(s, e)
    case Claim(id) => StartAt(s, id, Admitted) && s.starts[id].entry.Some? && s.starts[id].entry.value in s.db.queue
    case ChooseSlaves(id, nodes) => id in s.starts && MayChoose(s, s.starts[id], nodes)
    case MarkRunning(id) => StartAt(s, id, Chosen)
    case AddReport(id, r) => StartAt(s, id, Marked) && r > 0 && r !in s.db.reports
    case Bind(id) => StartAt(s, id, Added) && (s.starts[id].entry.Some? ==> s.starts[id].entry.value in s.db.queue)
    case LeaseNodes(id, grants) =>
      && StartAt(s, id, Bound)
      && grants.Keys !! s.db.leases.Keys
      && grants.Values == s.starts[id].nodes
      && (forall a, b | a in grants && b in grants && grants[a] == grants[b] :: a == b)
    case Launch(id) => StartAt(s, id, Ready)
    case RefuseLaunch(id) => StartAt(s, id, Ready)
    case MarkStartFailed(id) => StartAt(s, id, LeaseRefused) || StartAt(s, id, LaunchRefused)
    case ReleaseAfterRefusal(id) => StartAt(s, id, FailureMarked)
    case Abort(id, _) => id in s.starts && MayAbort(s.starts[id])
    case Settle(id) => StartAt(s, id, Launched)
    case ProcessStart(r) => r in s.runners && s.runners[r].pc.Spawned?
    case ProcessExit(r, _, _, _) => r in s.runners && s.runners[r].pc.Alive?
    case ProcessError(r) => r in s.runners && (s.runners[r].pc.Spawned? || s.runners[r].pc.Alive?)
    case Callback(r) => r in s.runners && (s.runners[r].pc.Exited? || s.runners[r].pc.Crashed?)
    case RecordRun(r) => r in s.runners && s.runners[r].pc.CalledBack?
    case RunnerRelease(r) => r in s.runners && (s.runners[r].pc.Recorded? || s.runners[r].pc.CrashReported?)
    case StopBegin(k, r, _) => k !in s.stops && r in s.db.reports && s.db.reports[r].status.RunIng?
    case StopSignal(k) => k in s.stops && s.stops[k].pc.Began?
    case StopRelease(k) => k in s.stops && s.stops[k].byUser && s.stops[k].pc.Signalled?
    case StopFinish(k) =>
      && k in s.stops && s.stops[k].reportId in s.db.reports
      && (if s.stops[k].byUser then s.stops[k].pc.LeasesFreed? else s.stops[k].pc.Signalled?)
    case StopCleanup(t) => t in s.db.testcases && s.db.testcases[t].RunIng? && !HasRunningReport(s.db, t)
    case Restart => true
  }

  // ----- effects ---------------------------------------------------------------------------

  function At(s: System, start: Id, pc: StartPc): System
    requires start in s.starts
  {
    s.(starts := s.starts[start := s.starts[start].(pc := pc)])
  }

  function RunnerAt(s: System, report: Id, pc: RunnerPc): System
    requires report in s.runners
  {
    s.(runners := s.runners[report := s.runners[report].(pc := pc)])
  }

  function StopAt(s: System, stop: Id, pc: StopPc): System
    requires stop in s.stops
  {
    s.(stops := s.stops[stop := s.stops[stop].(pc := pc)])
  }

  /** The verdict on a finished process. */
  function Verdict(debug: bool, exitCode: int, outputFailed: bool, logFailed: bool): CaseStatus {
    if exitCode < 0 then RunFailed
    else if outputFailed || exitCode != 0 then RunFailed
    else if debug && logFailed then RunFailed
    else RunSuccess
  }

  /** The status a runner reports back. */
  function FinalOf(runner: Runner): (final: CaseStatus)
    ensures final.RunSuccess? || final.RunFailed?
    ensures final.RunSuccess? <==>
      runner.pc.Exited? && runner.pc.exitCode == 0 && !runner.pc.outputFailed && (runner.debug ==> !runner.pc.logFailed)
  {
    if runner.pc.Exited?
    then Verdict(runner.debug, runner.pc.exitCode, runner.pc.outputFailed, runner.pc.logFailed)
    else RunFailed
  }

  /** What the dispatcher or the request sees when a start raises before a report exists. */
  function Aborted(s: System, id: Id, unexpected: bool): System
    requires id in s.starts
  {
    var st := s.starts[id];
    var over := At(s, id, Over);
    if unexpected && st.entry.Some? && st.entry.value in s.db.queue then
      over.(db := SetCase(s.db, st.testcase, RunFailed)
                  .(queue := s.db.queue[st.entry.value := s.db.queue[st.entry.value].(status := QFailed)]))
    else over
  }

  /** The dispatcher's look at the report after a start returned. */
  function Settled(s: System, id: Id): System
    requires id in s.starts
  {
    var st := s.starts[id];
    var over := At(s, id, Over);
    if && st.entry.Some? && st.entry.value in s.db.queue
       && st.reportId in s.db.reports && !s.db.reports[st.reportId].status.RunIng?
    then
      var closed := s.db.queue[st.entry.value].(status := ClosedStatus(s.db.reports[st.reportId].status));
      over.(db := s.db.(queue := s.db.queue[st.entry.value := closed]))
    else over
  }

  function RecordedAs(run: Option<RunStatus>, final: CaseStatus): RunStatus {
    if run == Some(RStopping) then RFailed else if final.RunSuccess? then RSuccess else RFailed
  }

  function DoAdmit(s: System, id: Id, testcase: Id, region: string, queued: Option<Id>, local: bool, debug: bool): System {
    var seen := if queued.Some? && queued.value in s.db.queue then s.db.queue[queued.value].status else QPending;
    s.(starts := s.starts[id := Start(testcase, region, queued, seen, local, debug, {}, 0, Admitted)])
  }

  /** The check is on the copy, the write on the row: whatever became of the entry since. */
  function DoClaim(s: System, id: Id): System
    requires id in s.starts && s.starts[id].entry.Some? && s.starts[id].entry.value in s.db.queue
  {
    if s.starts[id].seen.QPending?
    then At(s, id, Claimed).(db := ClaimedEntry(s.db, s.starts[id].entry.value))
    else At(s, id, Over)
  }

  function DoChooseSlaves(s: System, id: Id, nodes: set<Id>): System
    requires id in s.starts
  {
    s.(starts := s.starts[id := s.starts[id].(nodes := nodes, pc := Chosen)])
  }

  function DoMarkRunning(s: System, id: Id): System
    requires id in s.starts
  {
    At(s, id, Marked).(db := SetCase(s.db, s.starts[id].testcase, RunIng))
  }

  function DoAddReport(s: System, id: Id, r: Id): System
    requires id in s.starts
  {
    var st := s.starts[id];
    s.(starts := s.starts[id := st.(reportId := r, pc := Added)],
       db := s.db.(reports := s.db.reports[r := Report(st.testcase, st.region, RunIng, Started)]))
  }

  function DoBind(s: System, id: Id): System
    requires id in s.starts && (s.starts[id].entry.Some? ==> s.starts[id].entry.value in s.db.queue)
  {
    var st := s.starts[id];
    if st.entry.None? then At(s, id, Bound)
    else if s.db.queue[st.entry.value].status.QRunning?
    then At(s, id, Bound).(db := BoundEntry(s.db, st.entry.value, st.reportId))
    else At(s, id, Over)
  }

  function DoLeaseNodes(s: System, id: Id, grants: map<Id, Id>): System
    requires id in s.starts
  {
    if grants.Values !! LeasedNodes(s.db)
    then At(s, id, Ready).(db := Granted(s.db, s.starts[id].reportId, grants))
    else At(s, id, LeaseRefused)
  }

  function DoLaunch(s: System, id: Id): System
    requires id in s.starts
  {
    var st := s.starts[id];
    At(s, id, Launched).(
      db := s.db.(runs := s.db.runs[st.reportId := RPreparing]),
      runners := s.runners[st.reportId := Runner(st.testcase, st.debug, Spawned)])
  }

  function DoRefuseLaunch(s: System, id: Id): System
    requires id in s.starts
  {
    var st := s.starts[id];
    At(s, id, if st.debug then Over else LaunchRefused)
      .(db := CalledBackWith(s.db, st.testcase, st.reportId, RunFailed))
  }

  function DoMarkStartFailed(s: System, id: Id): System
    requires id in s.starts
  {
    var st := s.starts[id];
    At(s, id, if st.pc.LeaseRefused? then Over else FailureMarked)
      .(db := StartFailed(s.db, st.testcase, st.reportId, st.entry.Some?))
  }

  function DoReleaseAfterRefusal(s: System, id: Id): System
    requires id in s.starts
  {
    At(s, id, Over).(db := ReleasedBy(s.db, s.starts[id].reportId))
  }

  function DoCallback(s: System, r: Id): System
    requires r in s.runners
  {
    var runner := s.runners[r];
    RunnerAt(s, r, if runner.pc.Exited? then CalledBack(FinalOf(runner)) else CrashReported)
      .(db := CalledBackWith(s.db, runner.testcase, r, FinalOf(runner)))
  }

  function DoRecordRun(s: System, r: Id): System
    requires r in s.runners && s.runners[r].pc.CalledBack?
  {
    var run := if r in s.db.runs then Some(s.db.runs[r]) else None;
    RunnerAt(s, r, Recorded).(db := SetRun(s.db, r, RecordedAs(run, s.runners[r].pc.final)))
  }

  function DoStopFinish(s: System, k: Id): System
    requires k in s.stops && s.stops[k].reportId in s.db.reports
  {
    var r := s.stops[k].reportId;
    StopAt(s, k, Finished).(db := if s.stops[k].byUser then UserStopped(s.db, r) else ScanTimedOut(s.db, r))
  }

  function Apply(s: System, e: Event): System
    requires Enabled(s, e)
  {
    match e
    case Enqueue(q, t, region) => s.(db := Enqueued(s.db, q, t, region))
    case Cancel(q) => s.(db := Cancelled(s.db, q))
    case Admit(id, t, region, queued, local, debug) => DoAdmit(s, id, t, region, queued, local, debug)
    case Claim(id) => DoClaim(s, id)
    case ChooseSlaves(id, nodes) => DoChooseSlaves(s, id, nodes)
    case MarkRunning(id) => DoMarkRunning(s, id)
    case AddReport(id, r) => DoAddReport(s, id, r)
    case Bind(id) => DoBind(s, id)
    case LeaseNodes(id, grants) => DoLeaseNodes(s, id, grants)
    case Launch(id) => DoLaunch(s, id)
    case RefuseLaunch(id) => DoRefuseLaunch(s, id)
    case MarkStartFailed(id) => DoMarkStartFailed(s, id)
    case ReleaseAfterRefusal(id) => DoReleaseAfterRefusal(s, id)
    case Abort(id, unexpected) => Aborted(s, id, unexpected)
    case Settle(id) => Settled(s, id)
    case ProcessStart(r) => RunnerAt(s, r, Alive).(db := SetRun(s.db, r, RRunning))
    case ProcessExit(r, code, outputFailed, logFailed) => RunnerAt(s, r, Exited(code, outputFailed, logFailed))
    case ProcessError(r) => RunnerAt(s, r, Crashed).(db := SetRun(s.db, r, RFailed))
    case Callback(r) => DoCallback(s, r)
    case RecordRun(r) => DoRecordRun(s, r)
    case RunnerRelease(r) => RunnerAt(s, r, Gone).(db := ReleasedBy(s.db, r))
    case StopBegin(k, r, byUser) => s.(stops := s.stops[k := Stop(byUser, r, Began)])
    case StopSignal(k) => StopAt(s, k, Signalled).(db := SetRun(s.db, s.stops[k].reportId, RStopping))
    case StopRelease(k) => StopAt(s, k, LeasesFreed).(db := ReleasedBy(s.db, s.stops[k].reportId))
    case StopFinish(k) => DoStopFinish(s, k)
    case StopCleanup(t) => s.(db := SetCase(s.db, t, RunFailed))
    case Restart => System(Recovered(s.db), map[], map[], map[])
  }

  // ----- runs --------------------------------------------------------------------------------

  /** A fresh installation: testcases that never ran, and nothing else. */
  ghost predicate Init(s: System) {
    && s.db.reports == map[] && s.db.queue == map[] && s.db.runs == map[] && s.db.leases == map[]
    && (forall t | t in s.db.testcases :: s.db.testcases[t].NotRun?)
    && s.starts == map[] && s.runners == map[] && s.stops == map[]
  }

  /** The states a sequence of events passes through, the first included. */
  ghost predicate IsRun(states: seq<System>, events: seq<Event>) {
    && |states| == |events| + 1
    && forall i | 0 <= i < |events| ::
         Enabled(states[i], events[i]) && states[i + 1] == Apply(states[i], events[i])
  }

  ghost predicate Reachable(s: System) {
    exists states, events :: IsRun(states, events) && Init(states[0]) && states[|events|] == s
  }
}
