/** Where the processes come to when nobody asks for anything new: none of them ever waits for
    another, their work ends, and what is left then. */
module LifecycleProgress {
  import opened Options
  import opened ExecutionTables
  import opened CommitFacts
  import opened Lifecycle
  import opened LifecycleInvariant
  import opened LifecycleSteps
  import opened LifecycleStepProof
  import opened LifecycleHistory
  import opened LifecycleEntries
  import opened LifecycleStuck
  import opened LifecycleRows

  // ----- the work left --------------------------------------------------------------------------------------

  /** A step of a process that is under way: no request, no new stop and no restart. */
  predicate Moves(e: Event) {
    || (OfStart(e) && !e.Admit?)
    || e.ProcessStart? || e.ProcessExit? || e.ProcessError? || e.Callback? || e.RecordRun? || e.RunnerRelease?
    || e.StopSignal? || e.StopRelease? || e.StopFinish?
  }

  /** The most steps a start and its runner can still take. */
  function StartWork(pc: StartPc): nat {
    match pc
    case Admitted => 13
    case Claimed => 12
    case Chosen => 11
    case Marked => 10
    case Added => 9
    case Bound => 8
    case Ready => 7
    case LeaseRefused => 1
    case LaunchRefused => 2
    case FailureMarked => 1
    case Launched => 1
    case Over => 0
  }

  function RunnerWork(pc: RunnerPc): nat {
    match pc
    case Spawned => 5
    case Alive => 4
    case Exited(_, _, _) => 3
    case Crashed => 2
    case CalledBack(_) => 2
    case CrashReported => 1
    case Recorded => 1
    case Gone => 0
  }

  function StopWork(pc: StopPc): nat {
    match pc
    case Began => 3
    case Signalled => 2
    case LeasesFreed => 1
    case Finished => 0
  }

  ghost function Pick(work: map<Id, nat>): (k: Id)
    requires work != map[]
    ensures k in work
  {
    var k :| k in work; k
  }

  ghost function Total(work: map<Id, nat>): nat
    decreases work.Keys
  {
    if work == map[] then 0 else work[Pick(work)] + Total(work - {Pick(work)})
  }

  lemma {:induction false} TotalPick(work: map<Id, nat>, k: Id)
    requires k in work
    ensures Total(work) == work[k] + Total(work - {k})
    decreases work.Keys
  {
    var j := Pick(work);
    if j != k {
      TotalPick(work - {j}, k);
      TotalPick(work - {k}, j);
      assert work - {j} - {k} == work - {k} - {j};
    }
  }

  lemma TotalSet(work: map<Id, nat>, k: Id, n: nat)
    ensures Total(work[k := n]) + (if k in work then work[k] else 0) == Total(work) + n
  {
    hide Total;
    TotalPick(work[k := n], k);
    assert work[k := n] - {k} == work - {k};
    if k in work {
      TotalPick(work, k);
    } else {
      assert work - {k} == work;
    }
  }

  function StartsLeft(starts: map<Id, Start>): map<Id, nat> { map id | id in starts :: StartWork(starts[id].pc) }

  function RunnersLeft(runners: map<Id, Runner>): map<Id, nat> { map r | r in runners :: RunnerWork(runners[r].pc) }

  function StopsLeft(stops: map<Id, Stop>): map<Id, nat> { map k | k in stops :: StopWork(stops[k].pc) }

  /** The most steps all processes together can still take. */
  ghost function Work(s: System): nat {
    Total(StartsLeft(s.starts)) + Total(RunnersLeft(s.runners)) + Total(StopsLeft(s.stops))
  }

  lemma StartSet(starts: map<Id, Start>, id: Id, st: Start)
    ensures Total(StartsLeft(starts[id := st])) + (if id in starts then StartWork(starts[id].pc) else 0) ==
      Total(StartsLeft(starts)) + StartWork(st.pc)
  {
    hide Total, StartWork;
    TotalSet(StartsLeft(starts), id, StartWork(st.pc));
    assert StartsLeft(starts[id := st]) == StartsLeft(starts)[id := StartWork(st.pc)];
  }

  lemma RunnerSet(runners: map<Id, Runner>, r: Id, runner: Runner)
    ensures Total(RunnersLeft(runners[r := runner])) + (if r in runners then RunnerWork(runners[r].pc) else 0) ==
      Total(RunnersLeft(runners)) + RunnerWork(runner.pc)
  {
    hide Total, RunnerWork;
    TotalSet(RunnersLeft(runners), r, RunnerWork(runner.pc));
    assert RunnersLeft(runners[r := runner]) == RunnersLeft(runners)[r := RunnerWork(runner.pc)];
  }

  lemma StopSet(stops: map<Id, Stop>, k: Id, stop: Stop)
    ensures Total(StopsLeft(stops[k := stop])) + (if k in stops then StopWork(stops[k].pc) else 0) ==
      Total(StopsLeft(stops)) + StopWork(stop.pc)
  {
    hide Total, StopWork;
    TotalSet(StopsLeft(stops), k, StopWork(stop.pc));
    assert StopsLeft(stops[k := stop]) == StopsLeft(stops)[k := StopWork(stop.pc)];
  }

  // ----- every step spends some -------------------------------------------------------------------------------

  /** The start and nothing but its own work is another. */
  ghost predicate Advanced(s: System, s': System, id: Id) {
    && id in s.starts && id in s'.starts && s'.starts == s.starts[id := s'.starts[id]]
    && StartWork(s'.starts[id].pc) < StartWork(s.starts[id].pc)
    && s'.runners == s.runners && s'.stops == s.stops
  }

  predicate IsEarly(e: Event) { e.Claim? || e.ChooseSlaves? || e.MarkRunning? || e.Abort? }

  predicate IsAdding(e: Event) { e.AddReport? || e.Bind? || e.LeaseNodes? }

  lemma EarlyMoves(s: System, e: Event)
    requires Enabled(s, e) && IsEarly(e)
    ensures Advanced(s, Apply(s, e), e.start)
  {
    hide SetCase, ClaimedEntry, LeasedNodes, RunsInRegion;
  }

  lemma AddingMoves(s: System, e: Event)
    requires Enabled(s, e) && IsAdding(e)
    ensures Advanced(s, Apply(s, e), e.start)
  {
    hide LeasedNodes, Granted, BoundEntry;
  }

  lemma LateMoves(s: System, e: Event)
    requires Enabled(s, e) && (e.RefuseLaunch? || e.MarkStartFailed? || e.ReleaseAfterRefusal? || e.Settle?)
    ensures Advanced(s, Apply(s, e), e.start)
  {
    hide CalledBackWith, StartFailed, ReleasedBy;
  }

  lemma StartMoves(s: System, e: Event)
    requires Enabled(s, e) && OfStart(e) && !e.Admit? && !e.Launch?
    ensures Advanced(s, Apply(s, e), e.start)
  {
    hide Enabled, Apply, Advanced;
    if IsEarly(e) {
      EarlyMoves(s, e);
    } else if IsAdding(e) {
      AddingMoves(s, e);
    } else {
      LateMoves(s, e);
    }
  }

  lemma RunnerMoves(s: System, e: Event)
    requires Enabled(s, e) && Moves(e) && !OfStart(e) && !e.StopSignal? && !e.StopRelease? && !e.StopFinish?
    ensures e.report in s.runners && e.report in Apply(s, e).runners
    ensures Apply(s, e).runners == s.runners[e.report := Apply(s, e).runners[e.report]]
    ensures RunnerWork(Apply(s, e).runners[e.report].pc) < RunnerWork(s.runners[e.report].pc)
    ensures Apply(s, e).starts == s.starts && Apply(s, e).stops == s.stops
  {
    hide CalledBackWith, ReleasedBy, FinalOf;
  }

  lemma StopMoves(s: System, e: Event)
    requires Enabled(s, e) && (e.StopSignal? || e.StopRelease? || e.StopFinish?)
    ensures e.stop in s.stops && e.stop in Apply(s, e).stops
    ensures Apply(s, e).stops == s.stops[e.stop := Apply(s, e).stops[e.stop]]
    ensures StopWork(Apply(s, e).stops[e.stop].pc) < StopWork(s.stops[e.stop].pc)
    ensures Apply(s, e).starts == s.starts && Apply(s, e).runners == s.runners
  {
    hide UserStopped, ScanTimedOut, ReleasedBy;
  }

  lemma LaunchMoves(s: System, e: Event)
    requires Enabled(s, e) && e.Launch?
    ensures Work(Apply(s, e)) < Work(s)
  {
    hide Total, StartsLeft, RunnersLeft, StopsLeft;
    var st := s.starts[e.start];
    StartSet(s.starts, e.start, st.(pc := Launched));
    RunnerSet(s.runners, st.reportId, Runner(st.testcase, st.debug, Spawned));
  }

  /** Every step of a process leaves less work than there was. */
  lemma StepSpends(s: System, e: Event)
    requires Enabled(s, e) && Moves(e)
    ensures Work(Apply(s, e)) < Work(s)
  {
    hide Enabled, Apply, Total, StartsLeft, RunnersLeft, StopsLeft, StartWork, RunnerWork, StopWork;
    if e.Launch? {
      LaunchMoves(s, e);
    } else if OfStart(e) {
      StartMoves(s, e);
      StartSet(s.starts, e.start, Apply(s, e).starts[e.start]);
    } else if e.StopSignal? || e.StopRelease? || e.StopFinish? {
      StopMoves(s, e);
      StopSet(s.stops, e.stop, Apply(s, e).stops[e.stop]);
    } else {
      RunnerMoves(s, e);
      RunnerSet(s.runners, e.report, Apply(s, e).runners[e.report]);
    }
  }

  // ----- nobody waits -------------------------------------------------------------------------------------------

  lemma {:induction false} FreshId(used: set<Id>) returns (id: Id)
    ensures id > 0 && forall u | u in used :: u < id
  {
    if used == {} {
      id := 1;
    } else {
      var u :| u in used;
      var rest := FreshId(used - {u});
      id := if rest > u then rest else u + 1;
      assert forall v | v in used && v != u :: v in used - {u};
    }
  }

  /** Rows for a lease of each node. */
  lemma {:induction false} FreshGrants(nodes: set<Id>, used: set<Id>) returns (grants: map<Id, Id>)
    ensures grants.Keys !! used && grants.Values == nodes
    ensures forall a, b | a in grants && b in grants && grants[a] == grants[b] :: a == b
    decreases nodes
  {
    if nodes == {} {
      grants := map[];
    } else {
      var n :| n in nodes;
      var id := FreshId(used);
      var rest := FreshGrants(nodes - {n}, used + {id});
      grants := rest[id := n];
      assert id in used + {id};
      OneGrantMore(rest, id, n, nodes - {n});
    }
  }

  lemma OneGrantMore(rest: map<Id, Id>, id: Id, n: Id, nodes: set<Id>)
    requires id !in rest && rest.Values == nodes && n !in nodes
    requires forall a, b | a in rest && b in rest && rest[a] == rest[b] :: a == b
    ensures rest[id := n].Values == nodes + {n}
    ensures var more := rest[id := n]; forall a, b | a in more && b in more && more[a] == more[b] :: a == b
  {
    var more := rest[id := n];
    forall v | v in nodes + {n}
      ensures v in more.Values
    {
      if v == n {
        assert more[id] == n;
      } else {
        var a :| a in rest && rest[a] == v;
        assert more[a] == v;
      }
    }
    assert forall a | a in rest :: rest[a] in rest.Values;
  }

  predicate Choosing(st: Start) { st.pc == if st.entry.Some? then Claimed else Admitted }

  /** Only queued starts claim. */
  ghost predicate ClaimsQueued(s: System) { forall id | id in s.starts :: s.starts[id].pc.Claimed? ==> s.starts[id].entry.Some? }

  lemma SoundStartGoesOn(s: System, id: Id) returns (e: Event)
    requires Inv(s) && ClaimsQueued(s) && id in s.starts && !s.starts[id].pc.Over?
    ensures Enabled(s, e) && Moves(e) && Mover(e) == Some(id)
    ensures e.Abort? ==>
      var st := s.starts[id];
      Choosing(st) && !st.local && st.region != "" && RegionBusy(s, st.testcase, st.region)
  {
    var st := s.starts[id];
    hide Inv, RegionBusy, Enabled;
    if Choosing(st) {
      e := ChoosingGoesOn(s, id);
    } else {
      e := ChosenGoesOn(s, id);
    }
  }

  lemma ChosenGoesOn(s: System, id: Id) returns (e: Event)
    requires Inv(s) && ClaimsQueued(s) && id in s.starts && !s.starts[id].pc.Over? && !Choosing(s.starts[id])
    ensures Enabled(s, e) && Moves(e) && Mover(e) == Some(id) && !e.Abort?
  {
    KnowsEntry(s, id);
    hide Inv, Enabled;
    if Leased(s.starts[id].pc) {
      e := LeasedGoesOn(s, id);
    } else {
      e := UnleasedGoesOn(s, id);
    }
  }

  predicate Leased(pc: StartPc) { pc.Ready? || pc.LeaseRefused? || pc.LaunchRefused? || pc.FailureMarked? || pc.Launched? }

  lemma LeasedGoesOn(s: System, id: Id) returns (e: Event)
    requires id in s.starts && Leased(s.starts[id].pc)
    ensures Enabled(s, e) && Moves(e) && Mover(e) == Some(id) && !e.Abort?
  {
    e := match s.starts[id].pc
         case Ready => Launch(id)
         case FailureMarked => ReleaseAfterRefusal(id)
         case Launched => Settle(id)
         case _ => MarkStartFailed(id);
  }

  lemma UnleasedGoesOn(s: System, id: Id) returns (e: Event)
    requires ClaimsQueued(s) && id in s.starts && !s.starts[id].pc.Over? && !Choosing(s.starts[id]) && !Leased(s.starts[id].pc)
    requires s.starts[id].entry.Some? ==> s.starts[id].entry.value in s.db.queue
    ensures Enabled(s, e) && Moves(e) && Mover(e) == Some(id) && !e.Abort?
  {
    hide MayAdmit, MayChoose, MayAbort, HasActiveEntry, HasRunningReport;
    match s.starts[id].pc
    case Admitted => e := Claim(id);
    case Chosen => e := MarkRunning(id);
    case Marked => var r := FreshId(s.db.reports.Keys); e := AddReport(id, r);
    case Added => e := Bind(id);
    case Bound => var grants := FreshGrants(s.starts[id].nodes, s.db.leases.Keys); e := LeaseNodes(id, grants);
  }

  lemma KnowsEntry(s: System, id: Id)
    requires Inv(s) && id in s.starts
    ensures s.starts[id].entry.Some? ==> s.starts[id].entry.value in s.db.queue
  {
    StartIsOk(s, id);
    hide Inv;
  }

  lemma ChoosingGoesOn(s: System, id: Id) returns (e: Event)
    requires id in s.starts && Choosing(s.starts[id])
    ensures Enabled(s, e) && Moves(e) && Mover(e) == Some(id)
    ensures e.Abort? ==>
      var st := s.starts[id];
      !st.local && st.region != "" && RegionBusy(s, st.testcase, st.region)
  {
    hide RegionBusy, LeasedNodes;
    var st := s.starts[id];
    BusyIsRunning(s, st.testcase, st.region);
    hide RunsInRegion;
    if st.local || st.region == "" {
      e := ChooseSlaves(id, {});
    } else if RegionBusy(s, st.testcase, st.region) {
      e := Abort(id, false);
    } else {
      var node := FreshId(LeasedNodes(s.db));
      e := ChooseSlaves(id, {node});
    }
  }

  lemma RunnerGoesOn(s: System, r: Id) returns (e: Event)
    requires r in s.runners && !s.runners[r].pc.Gone?
    ensures Enabled(s, e) && Moves(e) && !OfStart(e) && !e.StopSignal? && !e.StopRelease? && !e.StopFinish? && e.report == r
  {
    match s.runners[r].pc
    case Spawned => e := ProcessStart(r);
    case Alive => e := ProcessExit(r, 0, false, false);
    case Exited(_, _, _) => e := Callback(r);
    case Crashed => e := Callback(r);
    case CalledBack(_) => e := RecordRun(r);
    case CrashReported => e := RunnerRelease(r);
    case Recorded => e := RunnerRelease(r);
  }

  /** A stop knows its report, and only a user's frees leases before its last write. */
  ghost predicate StopsOk(s: System) {
    forall k | k in s.stops :: s.stops[k].reportId in s.db.reports && (s.stops[k].pc.LeasesFreed? ==> s.stops[k].byUser)
  }

  lemma StopGoesOn(s: System, k: Id) returns (e: Event)
    requires StopsOk(s) && k in s.stops && !s.stops[k].pc.Finished?
    ensures Enabled(s, e) && (e.StopSignal? || e.StopRelease? || e.StopFinish?) && e.stop == k
  {
    e := match s.stops[k].pc
         case Began => StopSignal(k)
         case Signalled => if s.stops[k].byUser then StopRelease(k) else StopFinish(k)
         case LeasesFreed => StopFinish(k);
  }

  lemma StopsOkStep(s: System, e: Event)
    requires Inv(s) && StopsOk(s) && Enabled(s, e)
    ensures StopsOk(Apply(s, e))
  {
    var s' := Apply(s, e);
    forall k | k in s'.stops
      ensures s'.stops[k].reportId in s'.db.reports && (s'.stops[k].pc.LeasesFreed? ==> s'.stops[k].byUser)
    {
      StopStep(s, e, k);
      var r := s'.stops[k].reportId;
      ReportRowStep(s, e, r);
      hide Inv, Apply, MayAdmit, MayChoose, MayAbort, HasActiveEntry, HasRunningReport;
      assert Find(s'.stops, k) == NextStop(s, e, k);
    }
  }

  // ----- whose a running report is --------------------------------------------------------------------------------

  /** A start that will still launch or fail its report. */
  predicate OwesReport(pc: StartPc) { pc.Added? || OwesEntry(pc) }

  /** Every report that runs has a process that will end it: its start up to the launch, or its
      runner up to the callback. */
  ghost predicate ReportOwned(s: System, r: Id) {
    || (exists id :: id in s.starts && s.starts[id].reportId == r && OwesReport(s.starts[id].pc))
    || (r in s.runners && WillCloseEntry(s.runners[r].pc))
  }

  ghost predicate ReportsOwned(s: System) { forall r | RunningReport(s, r) :: ReportOwned(s, r) }

  lemma RunnerStaysOwner(s: System, e: Event, r: Id)
    requires Enabled(s, e) && r in s.runners && WillCloseEntry(s.runners[r].pc)
    requires RunningReport(s, r) && RunningReport(Apply(s, e), r) && Find(Apply(s, e).db.reports, r) == NextReport(s, e, r)
    ensures ReportOwned(Apply(s, e), r)
  {
    RunnerStep(s, e, r);
    hide Apply, MayAdmit, MayChoose, MayAbort, HasActiveEntry, HasRunningReport;
    assert Find(Apply(s, e).runners, r) == NextRunner(s, e, r);
  }

  lemma BindsWhenAdded(s: System, id: Id)
    requires Inv(s) && id in s.starts && s.starts[id].pc.Added?
    ensures s.starts[id].entry.Some? ==> EntryIs(s, s.starts[id].entry.value, QRunning)
  {
    StartIsOk(s, id);
    hide Inv;
  }

  lemma StartStaysOwner(s: System, e: Event, r: Id, id: Id)
    requires Enabled(s, e) && id in s.starts && s.starts[id].reportId == r && OwesReport(s.starts[id].pc)
    requires s.starts[id].pc.Added? && s.starts[id].entry.Some? ==> EntryIs(s, s.starts[id].entry.value, QRunning)
    requires RunningReport(s, r) && RunningReport(Apply(s, e), r) && Find(Apply(s, e).db.reports, r) == NextReport(s, e, r)
    ensures ReportOwned(Apply(s, e), r)
  {
    if e.Launch? && e.start == id {
      LaunchedOwner(s, e);
    } else {
      StartRowStep(s, e, id);
      hide Apply, MayAdmit, MayChoose, HasActiveEntry, HasRunningReport, AllFree, CleanExit, WillCloseEntry, EntryIs;
      assert Find(Apply(s, e).starts, id) == NextStart(s, e, id);
      if !e.Restart? && Mover(e) == Some(id) {
        OwnerMoves(s, e, id);
      }
    }
  }

  lemma LaunchedOwner(s: System, e: Event)
    requires Enabled(s, e) && e.Launch?
    ensures ReportOwned(Apply(s, e), s.starts[e.start].reportId)
  {}

  lemma OwnerMoves(s: System, e: Event, id: Id)
    requires Enabled(s, e) && id in s.starts && OwesReport(s.starts[id].pc) && Mover(e) == Some(id) && !e.Launch?
    requires s.starts[id].pc.Added? && s.starts[id].entry.Some? ==> EntryIs(s, s.starts[id].entry.value, QRunning)
    requires RunningReport(s, s.starts[id].reportId)
    requires NextReport(s, e, s.starts[id].reportId).Some? && NextReport(s, e, s.starts[id].reportId).value.status.RunIng?
    ensures NextStart(s, e, id).Some? && OwesReport(NextStart(s, e, id).value.pc)
    ensures NextStart(s, e, id).value.reportId == s.starts[id].reportId
  {
    hide HasActiveEntry, AllFree, CleanExit, LeasedNodes, RunsInRegion, DispatcherFree;
  }

  lemma OwnerStays(s: System, e: Event, r: Id)
    requires Inv(s) && Enabled(s, e) && RunningReport(s, r) && ReportOwned(s, r) && RunningReport(Apply(s, e), r)
    ensures ReportOwned(Apply(s, e), r)
  {
    hide Inv, Enabled, Apply, OwesReport, WillCloseEntry, RunningReport;
    ReportRowStep(s, e, r);
    if r in s.runners && WillCloseEntry(s.runners[r].pc) {
      RunnerStaysOwner(s, e, r);
    } else {
      var id :| id in s.starts && s.starts[id].reportId == r && OwesReport(s.starts[id].pc);
      if s.starts[id].pc.Added? {
        BindsWhenAdded(s, id);
      }
      StartStaysOwner(s, e, r, id);
    }
  }

  lemma ReportsOwnedStep(s: System, e: Event)
    requires Inv(s) && ReportsOwned(s) && Enabled(s, e)
    ensures ReportsOwned(Apply(s, e))
  {
    hide Inv, Enabled, Apply, ReportOwned;
    forall r | RunningReport(Apply(s, e), r)
      ensures ReportOwned(Apply(s, e), r)
    {
      ReportRowStep(s, e, r);
      RanBefore(s, e, r);
      if e.AddReport? && e.report == r {
        AddedIsOwned(s, e);
      } else {
        OwnerStays(s, e, r);
      }
    }
  }

  lemma AddedIsOwned(s: System, e: Event)
    requires Enabled(s, e) && e.AddReport?
    ensures ReportOwned(Apply(s, e), e.report)
  {
    assert Apply(s, e).starts[e.start].reportId == e.report;
  }

  // ----- what holds in every state ------------------------------------------------------------------------------------

  lemma ClaimsQueuedStep(s: System, e: Event)
    requires ClaimsQueued(s) && Enabled(s, e)
    ensures ClaimsQueued(Apply(s, e))
  {
    var s' := Apply(s, e);
    forall id | id in s'.starts
      ensures s'.starts[id].pc.Claimed? ==> s'.starts[id].entry.Some?
    {
      StartRowStep(s, e, id);
      ClaimedHasEntry(s, e, id);
      hide Enabled, Apply, NextStart;
      assert Find(s'.starts, id) == NextStart(s, e, id);
    }
  }

  lemma ClaimedHasEntry(s: System, e: Event, id: Id)
    requires ClaimsQueued(s) && Enabled(s, e) && NextStart(s, e, id).Some?
    ensures NextStart(s, e, id).value.pc.Claimed? ==> NextStart(s, e, id).value.entry.Some?
  {
    hide MayAdmit, MayChoose, MayAbort, HasActiveEntry, HasRunningReport, AllFree;
  }

  ghost predicate Sound(s: System) { Inv(s) && StopsOk(s) && ClaimsQueued(s) && ReportsOwned(s) }

  lemma SoundStep(s: System, e: Event)
    requires Sound(s) && Enabled(s, e)
    ensures Sound(Apply(s, e))
  {
    hide Inv, StopsOk, ClaimsQueued, ReportsOwned, Enabled, Apply;
    StepInv(s, e);
    StopsOkStep(s, e);
    ClaimsQueuedStep(s, e);
    ReportsOwnedStep(s, e);
  }

  lemma InitIsSound(s: System)
    requires Init(s)
    ensures Sound(s)
  {
    hide Inv;
    InitInv(s);
  }

  lemma {:induction false} RunIsSound(states: seq<System>, events: seq<Event>, i: nat)
    requires IsRun(states, events) && Init(states[0]) && i <= |events|
    ensures Sound(states[i])
  {
    hide Sound, Init, Apply, Enabled;
    if i == 0 {
      InitIsSound(states[0]);
    } else {
      RunIsSound(states, events, i - 1);
      SoundStep(states[i - 1], events[i - 1]);
    }
  }

  lemma ReachableIsSound(s: System)
    requires Reachable(s)
    ensures Sound(s)
  {
    hide Sound, Init, Enabled, Apply;
    var states, events :| IsRun(states, events) && Init(states[0]) && states[|events|] == s;
    RunIsSound(states, events, |events|);
  }

  /** In every reachable state a report that runs has a start before its launch or a runner before
      its callback, which will end it. */
  lemma RunningReportsAreOwned(s: System, r: Id)
    requires Reachable(s) && RunningReport(s, r)
    ensures ReportOwned(s, r)
  {
    hide Reachable, Inv, RunningReport, ReportOwned;
    ReachableIsSound(s);
  }

  // ----- at rest ------------------------------------------------------------------------------------------------------

  /** Every process has ended. */
  ghost predicate AtRest(s: System) {
    && (forall id | id in s.starts :: s.starts[id].pc.Over?)
    && (forall r | r in s.runners :: s.runners[r].pc.Gone?)
    && (forall k | k in s.stops :: s.stops[k].pc.Finished?)
  }

  lemma GoesOn(s: System) returns (e: Event)
    requires Sound(s) && !AtRest(s)
    ensures Enabled(s, e) && Moves(e)
  {
    hide Inv, Enabled, ClaimsQueued, StopsOk;
    if id :| id in s.starts && !s.starts[id].pc.Over? {
      e := SoundStartGoesOn(s, id);
    } else if r :| r in s.runners && !s.runners[r].pc.Gone? {
      e := RunnerGoesOn(s, r);
    } else {
      var k :| k in s.stops && !s.stops[k].pc.Finished?;
      e := StopGoesOn(s, k);
    }
  }

  /** A start that has not ended always has a next step of its own, and need not give up for it,
      unless it has yet to choose slaves in a named region where a report of its testcase runs. */
  lemma StartGoesOn(s: System, id: Id) returns (e: Event)
    requires Reachable(s) && id in s.starts && !s.starts[id].pc.Over?
    ensures Enabled(s, e) && Moves(e) && Mover(e) == Some(id)
    ensures e.Abort? ==>
      var st := s.starts[id];
      Choosing(st) && !st.local && st.region != "" && RegionBusy(s, st.testcase, st.region)
  {
    hide Reachable, Inv, Enabled, ClaimsQueued, RegionBusy;
    ReachableIsSound(s);
    e := SoundStartGoesOn(s, id);
  }

  /** No reachable state is a deadlock: processes can step exactly until all of them have ended. */
  lemma RestIsWhenNoneMoves(s: System)
    requires Reachable(s)
    ensures AtRest(s) <==> forall e | Moves(e) :: !Enabled(s, e)
  {
    hide Reachable, AtRest, Sound, Enabled;
    ReachableIsSound(s);
    if AtRest(s) {
      forall e | Moves(e)
        ensures !Enabled(s, e)
      {
        NoneMovesAtRest(s, e);
      }
    } else {
      var e := GoesOn(s);
    }
  }

  lemma NoneMovesAtRest(s: System, e: Event)
    requires AtRest(s) && Moves(e)
    ensures !Enabled(s, e)
  {
    hide LeasedNodes, RunsInRegion, HasActiveEntry, HasRunningReport;
  }

  /** Left to themselves the processes take no more steps than the work there was. */
  lemma {:induction false} MovesAreBounded(states: seq<System>, events: seq<Event>)
    requires IsRun(states, events) && forall e | e in events :: Moves(e)
    ensures |events| + Work(states[|events|]) <= Work(states[0])
  {
    hide Enabled, Apply, Work, Moves;
    var n := |events|;
    if n > 0 {
      var before, last := events[..n - 1], events[n - 1];
      assert events == before + [last] && forall e | e in before :: e in events;
      MovesAreBounded(states[..n], before);
      assert last in events && states[n] == Apply(states[n - 1], last);
      StepSpends(states[n - 1], last);
    }
  }

  lemma {:induction false} SoundComesToRest(s: System) returns (states: seq<System>, events: seq<Event>)
    requires Sound(s)
    ensures IsRun(states, events) && states[0] == s && (forall e | e in events :: Moves(e))
    ensures AtRest(states[|events|])
    decreases Work(s)
  {
    hide Sound, Enabled, Apply, Work, Moves, AtRest;
    if AtRest(s) {
      states, events := [s], [];
    } else {
      var e := GoesOn(s);
      SoundStep(s, e);
      StepSpends(s, e);
      var rest, more := SoundComesToRest(Apply(s, e));
      states, events := [s] + rest, [e] + more;
      assert states[|events|] == rest[|more|];
      forall i | 0 <= i < |events|
        ensures Enabled(states[i], events[i]) && states[i + 1] == Apply(states[i], events[i])
      {
        if i > 0 {
          assert states[i] == rest[i - 1] && events[i] == more[i - 1] && states[i + 1] == rest[i];
        }
      }
    }
  }

  /** From every reachable state the processes come to rest by their own steps. */
  lemma ComesToRest(s: System) returns (states: seq<System>, events: seq<Event>)
    requires Reachable(s)
    ensures IsRun(states, events) && states[0] == s && (forall e | e in events :: Moves(e))
    ensures AtRest(states[|events|])
  {
    hide Reachable, Sound, IsRun, AtRest;
    ReachableIsSound(s);
    states, events := SoundComesToRest(s);
  }

  /** A user's stop may clear a testcase exactly when it is set running and none of its reports runs. */
  lemma ClearsExactlyWhenNoneRuns(s: System, t: Id)
    ensures Enabled(s, StopCleanup(t)) <==>
      t in s.db.testcases && s.db.testcases[t].RunIng? && forall r | RunningReport(s, r) :: s.db.reports[r].testcase != t
  {
    if t in s.db.testcases && HasRunningReport(s.db, t) {
      var r :| r in s.db.reports && s.db.reports[r].testcase == t && s.db.reports[r].status.RunIng?;
      assert RunningReport(s, r);
    }
  }

  /** At rest no report runs and no node is taken; an entry that still runs is stranded or orphaned,
      and a testcase that is still set running can be cleared by a user's stop. */
  lemma RestIsClean(s: System)
    requires Reachable(s) && AtRest(s)
    ensures forall r :: !RunningReport(s, r)
    ensures forall n :: !NodeTaken(s, n)
    ensures forall q | EntryIs(s, q, QRunning) :: Stranded(s, q) || Orphaned(s, q)
    ensures forall t | t in s.db.testcases && s.db.testcases[t].RunIng? :: Enabled(s, StopCleanup(t))
  {
    hide Reachable, Inv, Enabled, RunningReport, NodeTaken, Stranded, Orphaned, LeasedNodes;
    ReachableIsSound(s);
    LeasesAreSafe(s);
    forall r
      ensures !RunningReport(s, r)
    {
      NothingOwedAtRest(s, r);
    }
    forall n
      ensures !NodeTaken(s, n)
    {
      NoneTaken(s, n);
    }
    forall q | EntryIs(s, q, QRunning)
      ensures Stranded(s, q) || Orphaned(s, q)
    {
      StuckAtRest(s, q);
    }
    forall t | t in s.db.testcases && s.db.testcases[t].RunIng?
      ensures Enabled(s, StopCleanup(t))
    {
      ClearsExactlyWhenNoneRuns(s, t);
    }
  }

  lemma NoneTaken(s: System, n: Id)
    requires LeasedNodes(s.db) == {}
    ensures !NodeTaken(s, n)
  {
    assert n !in LeasedNodes(s.db);
  }

  lemma NothingOwedAtRest(s: System, r: Id)
    requires AtRest(s)
    ensures !ReportOwned(s, r)
  {}

  lemma StuckAtRest(s: System, q: Id)
    requires Inv(s) && AtRest(s) && EntryIs(s, q, QRunning) && forall r :: !RunningReport(s, r)
    ensures Stranded(s, q) || Orphaned(s, q)
  {
    hide StartsShape, LeasesOwned, EntriesOwned, OneLeasePerNode, OnePending, UnboundBeforeRun;
    var r := s.db.queue[q].reportId;
    if r != 0 {
      assert r in s.db.reports && !RunningReport(s, r);
      assert !Unsettled(s, r);
    }
  }
}
