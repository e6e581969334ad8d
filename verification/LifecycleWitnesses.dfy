/** Runs that reach the stuck shapes, how long they last, and what a restart repairs. */
module LifecycleWitnesses {
  import opened Options
  import opened ExecutionTables
  import opened CommitFacts
  import opened Lifecycle
  import opened LifecycleInvariant
  import opened LifecycleStepProof
  import opened LifecycleHistory
  import opened LifecycleEntries
  import opened LifecycleStuck
  import opened LifecycleCancels
  import opened LifecycleRows

  lemma InitIsReachable(s: System)
    requires Init(s)
    ensures Reachable(s)
  {
    hide Init;
    var none: seq<Event> := [];
    assert IsRun([s], none) && [s][|none|] == s;
  }

  lemma ReachStep(s: System, e: Event)
    requires Reachable(s) && Enabled(s, e)
    ensures Reachable(Apply(s, e))
  {
    hide Init, Enabled, Apply;
    var states, events :| IsRun(states, events) && Init(states[0]) && states[|events|] == s;
    var states', events' := states + [Apply(s, e)], events + [e];
    assert IsRun(states', events');
    assert Init(states'[0]) && states'[|events'|] == Apply(s, e);
  }

  // ----- claimed but never bound ------------------------------------------------------------------------

  /** A queued start past its claim. */
  lemma ReachClaimed(s0: System, t: Id, region: string, q: Id, id: Id) returns (s: System)
    requires Init(s0) && t in s0.db.testcases
    ensures Reachable(s) && EntryIs(s, q, QRunning) && s.db.queue == map[q := Entry(t, region, QRunning, 0)]
    ensures s.starts == map[id := Start(t, region, Some(q), QPending, false, false, {}, 0, Claimed)]
    ensures t in s.db.testcases && s.db.reports == map[] && s.db.leases == map[] && s.runners == map[] && s.stops == map[]
  {
    InitIsReachable(s0);
    var e1 := Enqueue(q, t, region);
    ReachStep(s0, e1);
    var s1 := Apply(s0, e1);
    var e2 := Admit(id, t, region, Some(q), false, false);
    ReachStep(s1, e2);
    var s2 := Apply(s1, e2);
    var e3 := Claim(id);
    ReachStep(s2, e3);
    s := Apply(s2, e3);
  }

  /** A claimed entry whose start fails before the report exists is stranded. */
  lemma StrandedIsReachable(s0: System, t: Id, region: string, q: Id, id: Id) returns (s: System)
    requires Init(s0) && t in s0.db.testcases
    ensures Reachable(s) && Stranded(s, q) && s.db.queue[q] == Entry(t, region, QRunning, 0)
  {
    var claimed := ReachClaimed(s0, t, region, q, id);
    var e := Abort(id, false);
    ReachStep(claimed, e);
    s := Apply(claimed, e);
  }

  // ----- canceled between check and claim -----------------------------------------------------------------

  /** A queued entry canceled while its start is between check and claim. */
  lemma ReachCanceled(s0: System, t: Id, region: string, q: Id, id: Id) returns (s: System)
    requires Init(s0) && t in s0.db.testcases
    ensures Reachable(s) && s.db.queue == map[q := Entry(t, region, QCanceled, 0)] && t in s.db.testcases
    ensures s.starts == map[id := Start(t, region, Some(q), QPending, false, false, {}, 0, Admitted)]
  {
    hide Reachable;
    InitIsReachable(s0);
    var e1 := Enqueue(q, t, region);
    ReachStep(s0, e1);
    var s1 := Apply(s0, e1);
    var e2 := Admit(id, t, region, Some(q), false, false);
    ReachStep(s1, e2);
    var s2 := Apply(s1, e2);
    ReachStep(s2, Cancel(q));
    s := Apply(s2, Cancel(q));
  }

  /** The claim then sets it running, and an unexpected error of its start sets it failed. */
  lemma CanceledCanChange(s0: System, t: Id, region: string, q: Id, id: Id) returns (s: System)
    requires Init(s0) && t in s0.db.testcases
    ensures Reachable(s) && EntryIs(s, q, QCanceled)
    ensures Enabled(s, Claim(id)) && EntryIs(Apply(s, Claim(id)), q, QRunning) && Reachable(Apply(s, Claim(id)))
    ensures Enabled(s, Abort(id, true)) && EntryIs(Apply(s, Abort(id, true)), q, QFailed) && Reachable(Apply(s, Abort(id, true)))
  {
    hide Reachable;
    s := ReachCanceled(s0, t, region, q, id);
    ReachStep(s, Claim(id));
    ReachStep(s, Abort(id, true));
  }

  /** Queued again before the claim, the testcase has two active entries in its region. */
  lemma TwoActiveAreReachable(s0: System, t: Id, region: string, p: Id, q: Id, id: Id) returns (s: System)
    requires Init(s0) && t in s0.db.testcases && p != q
    ensures Reachable(s) && !OneActive(s.db.queue)
    ensures s.db.queue == map[p := Entry(t, region, QRunning, 0), q := Entry(t, region, QPending, 0)]
  {
    hide Reachable;
    var canceled := ReachCanceled(s0, t, region, p, id);
    var again := Enqueue(q, t, region);
    ReachStep(canceled, again);
    var queued := Apply(canceled, again);
    ReachStep(queued, Claim(id));
    s := Apply(queued, Claim(id));
    assert s.db.queue[p].status.QRunning? && s.db.queue[q].status.QPending?;
  }

  // ----- two runs in one region -----------------------------------------------------------------------------

  /** Two direct starts of a testcase in one region, at these positions. */
  ghost predicate TwoStarts(s: System, t: Id, region: string, a: Id, b: Id, r: Id, node: Id, pcA: StartPc, pcB: StartPc) {
    && Reachable(s) && a != b && r > 0 && t in s.db.testcases && s.db.leases == map[] && s.db.queue == map[] && s.stops == map[]
    && s.runners == map[]
    && s.starts == map[a := Start(t, region, None, QPending, false, false, if pcA.Admitted? then {} else {node},
                                  if pcA.Added? then r else 0, pcA),
                       b := Start(t, region, None, QPending, false, false, if pcB.Admitted? then {} else {node}, 0, pcB)]
    && s.db.reports == if pcA.Added? then map[r := Report(t, region, RunIng, Started)] else map[]
  }

  lemma BothAdmitted(s0: System, t: Id, region: string, a: Id, b: Id, r: Id, node: Id) returns (s: System)
    requires Init(s0) && t in s0.db.testcases && a != b && r > 0
    ensures TwoStarts(s, t, region, a, b, r, node, Admitted, Admitted)
  {
    hide Reachable;
    InitIsReachable(s0);
    var e1, e2 := Admit(a, t, region, None, false, false), Admit(b, t, region, None, false, false);
    ReachStep(s0, e1);
    ReachStep(Apply(s0, e1), e2);
    s := Apply(Apply(s0, e1), e2);
  }

  lemma BothChosen(s: System, t: Id, region: string, a: Id, b: Id, r: Id, node: Id) returns (s': System)
    requires TwoStarts(s, t, region, a, b, r, node, Admitted, Admitted)
    ensures TwoStarts(s', t, region, a, b, r, node, Chosen, Chosen)
  {
    hide Reachable;
    var e1, e2 := ChooseSlaves(a, {node}), ChooseSlaves(b, {node});
    ReachStep(s, e1);
    ReachStep(Apply(s, e1), e2);
    s' := Apply(Apply(s, e1), e2);
  }

  lemma BothMarked(s: System, t: Id, region: string, a: Id, b: Id, r: Id, node: Id) returns (s': System)
    requires TwoStarts(s, t, region, a, b, r, node, Chosen, Chosen)
    ensures TwoStarts(s', t, region, a, b, r, node, Marked, Marked)
  {
    hide Reachable;
    var e1, e2 := MarkRunning(a), MarkRunning(b);
    ReachStep(s, e1);
    ReachStep(Apply(s, e1), e2);
    s' := Apply(Apply(s, e1), e2);
  }

  lemma FirstAdded(s: System, t: Id, region: string, a: Id, b: Id, r: Id, node: Id) returns (s': System)
    requires TwoStarts(s, t, region, a, b, r, node, Marked, Marked)
    ensures TwoStarts(s', t, region, a, b, r, node, Added, Marked)
  {
    hide Reachable;
    ReachStep(s, AddReport(a, r));
    s' := Apply(s, AddReport(a, r));
  }

  lemma SecondAdded(s: System, t: Id, region: string, a: Id, b: Id, r: Id, node: Id, q: Id) returns (s': System)
    requires TwoStarts(s, t, region, a, b, r, node, Added, Marked) && q > 0 && r != q
    ensures Reachable(s') && !OneRunPerRegion(s')
  {
    hide Reachable;
    ReachStep(s, AddReport(b, q));
    s' := Apply(s, AddReport(b, q));
    assert RunningReport(s', r) && RunningReport(s', q);
  }

  /** Both found the region free before either had a report. */
  lemma TwoRunsInOneRegion(s0: System, t: Id, region: string, a: Id, b: Id, r: Id, node: Id, q: Id) returns (s: System)
    requires Init(s0) && t in s0.db.testcases && a != b && r > 0 && q > 0 && r != q
    ensures Reachable(s) && !OneRunPerRegion(s)
  {
    hide Reachable, TwoStarts, OneRunPerRegion;
    s := BothAdmitted(s0, t, region, a, b, r, node);
    s := BothChosen(s, t, region, a, b, r, node);
    s := BothMarked(s, t, region, a, b, r, node);
    s := FirstAdded(s, t, region, a, b, r, node);
    s := SecondAdded(s, t, region, a, b, r, node, q);
  }

  // ----- ended by the timeout scan ------------------------------------------------------------------------

  predicate HasReport(pc: StartPc) { !BeforeReport(pc) }

  /** One queued execution alone in the system, its start at pc. */
  ghost predicate Scene(s: System, t: Id, region: string, q: Id, id: Id, r: Id, node: Id, pc: StartPc) {
    && Reachable(s) && r > 0 && t in s.db.testcases && s.stops == map[]
    && s.db.queue == map[q := Entry(t, region, QRunning, if HasReport(pc) && !pc.Added? then r else 0)]
    && s.db.reports == (if HasReport(pc) then map[r := Report(t, region, RunIng, Started)] else map[])
    && s.starts == map[id := Start(t, region, Some(q), QPending, false, false, if pc.Claimed? then {} else {node},
                                   if HasReport(pc) then r else 0, pc)]
    && (BeforeReport(pc) || pc.Added? || pc.Bound? ==> s.db.leases == map[])
    && s.runners == (if pc.Launched? || pc.Over? then map[r := Runner(t, false, Spawned)] else map[])
  }

  lemma ToChosen(s: System, t: Id, region: string, q: Id, id: Id, r: Id, node: Id) returns (s': System)
    requires Scene(s, t, region, q, id, r, node, Claimed)
    ensures Scene(s', t, region, q, id, r, node, Chosen)
  {
    hide Reachable;
    ReachStep(s, ChooseSlaves(id, {node}));
    s' := Apply(s, ChooseSlaves(id, {node}));
  }

  lemma ToMarked(s: System, t: Id, region: string, q: Id, id: Id, r: Id, node: Id) returns (s': System)
    requires Scene(s, t, region, q, id, r, node, Chosen)
    ensures Scene(s', t, region, q, id, r, node, Marked)
  {
    hide Reachable;
    ReachStep(s, MarkRunning(id));
    s' := Apply(s, MarkRunning(id));
  }

  lemma ToAdded(s: System, t: Id, region: string, q: Id, id: Id, r: Id, node: Id) returns (s': System)
    requires Scene(s, t, region, q, id, r, node, Marked)
    ensures Scene(s', t, region, q, id, r, node, Added)
  {
    hide Reachable;
    ReachStep(s, AddReport(id, r));
    s' := Apply(s, AddReport(id, r));
  }

  lemma ToBound(s: System, t: Id, region: string, q: Id, id: Id, r: Id, node: Id) returns (s': System)
    requires Scene(s, t, region, q, id, r, node, Added)
    ensures Scene(s', t, region, q, id, r, node, Bound)
  {
    hide Reachable;
    ReachStep(s, Bind(id));
    s' := Apply(s, Bind(id));
  }

  lemma SingleGrant(node: Id) returns (grants: map<Id, Id>)
    ensures grants == map[0 := node] && grants.Values == {node}
  {
    grants := map[0 := node];
    assert grants[0] in grants.Values;
  }

  lemma ToReady(s: System, t: Id, region: string, q: Id, id: Id, r: Id, node: Id) returns (s': System)
    requires Scene(s, t, region, q, id, r, node, Bound)
    ensures Scene(s', t, region, q, id, r, node, Ready)
  {
    hide Reachable;
    var grants := SingleGrant(node);
    ReachStep(s, LeaseNodes(id, grants));
    s' := Apply(s, LeaseNodes(id, grants));
  }

  lemma ToLaunched(s: System, t: Id, region: string, q: Id, id: Id, r: Id, node: Id) returns (s': System)
    requires Scene(s, t, region, q, id, r, node, Ready)
    ensures Scene(s', t, region, q, id, r, node, Launched)
  {
    hide Reachable;
    ReachStep(s, Launch(id));
    s' := Apply(s, Launch(id));
  }

  lemma ToSettled(s: System, t: Id, region: string, q: Id, id: Id, r: Id, node: Id) returns (s': System)
    requires Scene(s, t, region, q, id, r, node, Launched)
    ensures Scene(s', t, region, q, id, r, node, Over)
  {
    hide Reachable;
    ReachStep(s, Settle(id));
    s' := Apply(s, Settle(id));
  }

  lemma ToTimedOut(s: System, t: Id, region: string, q: Id, id: Id, r: Id, node: Id, k: Id) returns (s': System)
    requires Scene(s, t, region, q, id, r, node, Over)
    ensures Reachable(s') && Orphaned(s', q) && s'.db.queue[q] == Entry(t, region, QRunning, r) && NoUserStop(s', r)
  {
    hide Reachable, ScanTimedOut, Freeing;
    var signalled := ToSignalled(s, t, region, q, id, r, node, k);
    ReachStep(signalled, StopFinish(k));
    TimedOutFacts(signalled.db, r);
    s' := Apply(signalled, StopFinish(k));
  }

  lemma ToSignalled(s: System, t: Id, region: string, q: Id, id: Id, r: Id, node: Id, k: Id) returns (s': System)
    requires Scene(s, t, region, q, id, r, node, Over)
    ensures Reachable(s') && s'.db.queue == s.db.queue && s'.db.reports == s.db.reports && s'.starts == s.starts
    ensures s'.stops == map[k := Stop(false, r, Signalled)]
  {
    hide Reachable;
    ReachStep(s, StopBegin(k, r, false));
    var began := Apply(s, StopBegin(k, r, false));
    ReachStep(began, StopSignal(k));
    s' := Apply(began, StopSignal(k));
  }

  /** The scan ends the report of an execution that was bound, leased, launched and settled, and
      leaves its entry running. */
  lemma OrphanIsReachable(s0: System, t: Id, region: string, q: Id, id: Id, r: Id, node: Id, k: Id) returns (s: System)
    requires Init(s0) && t in s0.db.testcases && r > 0
    ensures Reachable(s) && Orphaned(s, q) && s.db.queue[q] == Entry(t, region, QRunning, r) && NoUserStop(s, r)
  {
    s := ReachClaimed(s0, t, region, q, id);
    assert Scene(s, t, region, q, id, r, node, Claimed);
    hide Reachable, Scene, Orphaned;
    s := ToChosen(s, t, region, q, id, r, node);
    s := ToMarked(s, t, region, q, id, r, node);
    s := ToAdded(s, t, region, q, id, r, node);
    s := ToBound(s, t, region, q, id, r, node);
    s := ToReady(s, t, region, q, id, r, node);
    s := ToLaunched(s, t, region, q, id, r, node);
    s := ToSettled(s, t, region, q, id, r, node);
    s := ToTimedOut(s, t, region, q, id, r, node, k);
  }

  /** No user's stop of the report is under way. */
  ghost predicate NoUserStop(s: System, r: Id) {
    forall k | k in s.stops && s.stops[k].byUser && s.stops[k].reportId == r :: s.stops[k].pc.Finished?
  }

  lemma StartsKeepStops(s: System, e: Event)
    requires Enabled(s, e) && OfStart(e)
    ensures Apply(s, e).stops == s.stops
  {
    hide MayAdmit, MayAbort, MayChoose, LeasedNodes, CalledBackWith, StartFailed, ReleasedBy, Granted, SetCase;
  }

  lemma NoUserStopStays(s: System, e: Event, r: Id)
    requires Enabled(s, e) && NoUserStop(s, r) && EndedReport(s, r)
    ensures NoUserStop(Apply(s, e), r)
    ensures e.StopFinish? && e.stop in s.stops && s.stops[e.stop].byUser ==> s.stops[e.stop].reportId != r
  {
    if OfStart(e) {
      hide Enabled, Apply;
      StartsKeepStops(s, e);
    } else {
      hide HasActiveEntry, HasRunningReport, CalledBackWith, ReleasedBy, UserStopped, ScanTimedOut, Enqueued, Cancelled, Recovered,
           FinalOf;
    }
  }

  // ----- how long it lasts -------------------------------------------------------------------------------

  predicate NoRestart(events: seq<Event>, i: nat, j: nat)
    requires i <= j <= |events|
  {
    forall k | i <= k < j :: !events[k].Restart?
  }

  /** From a stranded state on, whatever else happens, the entry stays as it is and no execution
      of its testcase and region can be queued until a restart. */
  lemma {:induction false} StrandedBlocks(states: seq<System>, events: seq<Event>, i: nat, j: nat, q: Id, entry: Id)
    requires IsRun(states, events) && Init(states[0]) && i <= j <= |events| && NoRestart(events, i, j)
    requires Stranded(states[i], q)
    ensures Stranded(states[j], q) && states[j].db.queue[q] == states[i].db.queue[q]
    ensures !Enabled(states[j], Enqueue(entry, states[i].db.queue[q].testcase, states[i].db.queue[q].region))
    decreases j
  {
    hide FullInv, Inv, Apply, Init, Unserved, Enabled;
    if i < j {
      StrandedBlocks(states, events, i, j - 1, q, entry);
      RunFullInv(states, events, j - 1);
      StrandedUntilRestart(states[j - 1], events[j - 1], q);
      RunsAdvance(states, events, j - 1, j);
      SameEntry(states[j - 1].db.queue, states[j].db.queue, q);
    }
    ActiveBlocks(states[j], q, entry);
  }

  lemma SameEntry(a: map<Id, Entry>, b: map<Id, Entry>, q: Id)
    requires EntriesAdvance(a, b) && q in a && q in b && a[q].status == b[q].status && a[q].reportId == b[q].reportId
    ensures a[q] == b[q]
  {}

  lemma ActiveBlocks(s: System, q: Id, entry: Id)
    requires q in s.db.queue && IsActive(s.db.queue[q].status)
    ensures !Enabled(s, Enqueue(entry, s.db.queue[q].testcase, s.db.queue[q].region))
  {}

  /** The same for an orphan, as long as no user's stop of its report was under way. */
  lemma {:induction false} OrphanBlocks(states: seq<System>, events: seq<Event>, i: nat, j: nat, q: Id, entry: Id)
    requires IsRun(states, events) && Init(states[0]) && i <= j <= |events| && NoRestart(events, i, j)
    requires Orphaned(states[i], q) && NoUserStop(states[i], states[i].db.queue[q].reportId)
    ensures Orphaned(states[j], q) && states[j].db.queue[q] == states[i].db.queue[q]
    ensures NoUserStop(states[j], states[j].db.queue[q].reportId)
    ensures !Enabled(states[j], Enqueue(entry, states[i].db.queue[q].testcase, states[i].db.queue[q].region))
    decreases j
  {
    hide AdmittedWaits, Inv, Apply, Init, Unsettled, Enabled, NoUserStop;
    if i < j {
      OrphanBlocks(states, events, i, j - 1, q, entry);
      var s, e, r := states[j - 1], events[j - 1], states[i].db.queue[q].reportId;
      RunFullInv(states, events, j - 1);
      NoUserStopStays(s, e, r);
      OrphanUntilStopOrRestart(s, e, q);
      RunsAdvance(states, events, j - 1, j);
      assert r != 0 by { ReportIsNotZero(s, q, r); }
      SameEntry(s.db.queue, states[j].db.queue, q);
    }
    ActiveBlocks(states[j], q, entry);
  }

  // ----- recovery ---------------------------------------------------------------------------------------

  /** A restart from any reachable state, stuck or not: nothing runs or is leased any more,
      stranded and orphaned entries have failed, waiting and ended entries are as they were, a
      second restart changes nothing, one entry per testcase and region is active, and an
      execution can be queued again exactly where none was waiting. */
  lemma RestartRepairs(s: System, q: Id, testcase: Id, region: string)
    requires Reachable(s)
    ensures Reachable(Apply(s, Restart)) && Quiet(Apply(s, Restart).db)
    ensures Apply(Apply(s, Restart), Restart) == Apply(s, Restart)
    ensures Stranded(s, q) || Orphaned(s, q) ==> EntryIs(Apply(s, Restart), q, QFailed)
    ensures q in s.db.queue && !IsLive(s.db.queue[q].status) ==>
      q in Apply(s, Restart).db.queue && Apply(s, Restart).db.queue[q] == s.db.queue[q]
    ensures OneActive(Apply(s, Restart).db.queue)
    ensures HasActiveEntry(Apply(s, Restart).db, testcase, region) <==> HasPendingEntry(s.db, testcase, region)
  {
    hide Reachable, Recovered, Quiet, Unserved, Unsettled, HasActiveEntry, HasPendingEntry;
    ReachStep(s, Restart);
    RecoveryIsQuietAndIdempotent(s.db);
    RecoveredQueue(s.db);
    RestartClears(s);
    ActiveAfterRestart(s.db, testcase, region);
    ReachableInv(s);
    OneActiveAfterRestart(s);
  }

  lemma OneActiveAfterRestart(s: System)
    requires Inv(s)
    ensures OneActive(Recovered(s.db).queue)
  {
    hide Recovered, StartsShape, LeasesOwned, EntriesOwned, OneLeasePerNode;
    RecoveredQueue(s.db);
  }

  predicate HasPendingEntry(db: Db, testcase: Id, region: string) {
    exists q :: q in db.queue && db.queue[q].testcase == testcase && db.queue[q].region == region && db.queue[q].status.QPending?
  }

  lemma ActiveAfterRestart(db: Db, testcase: Id, region: string)
    ensures HasActiveEntry(Recovered(db), testcase, region) <==> HasPendingEntry(db, testcase, region)
  {
    hide Recovered;
    RecoveredQueue(db);
  }
}
