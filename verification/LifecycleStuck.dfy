/** The shapes an execution can get stuck in: the exact event that makes each, and what can
    still end it. */
module LifecycleStuck {
  import opened Options
  import opened ExecutionTables
  import opened CommitFacts
  import opened Lifecycle
  import opened LifecycleInvariant
  import opened LifecycleSteps
  import opened LifecycleLaunchSteps
  import opened LifecycleStepProof
  import opened LifecycleHistory
  import opened LifecycleEntries

  // ----- a start waits for its entry --------------------------------------------------------------------

  predicate Waiting(s: System, q: Id) { EntryIs(s, q, QPending) || EntryIs(s, q, QCanceled) }

  /** Between the dispatcher's check and the claim an entry still waits or has been canceled. */
  ghost predicate AdmittedWaits(s: System) {
    forall id | id in s.starts && Checked(s.starts[id]) :: Waiting(s, s.starts[id].entry.value)
  }

  ghost predicate FullInv(s: System) { Inv(s) && AdmittedWaits(s) }

  lemma StepKeepsWaiting(s: System, e: Event)
    requires FullInv(s) && Enabled(s, e)
    ensures AdmittedWaits(Apply(s, e))
  {
    hide Inv, Enabled, Apply;
    var s' := Apply(s, e);
    if e.Restart? {
      RestartClears(s);
      return;
    }
    forall id | id in s'.starts && Checked(s'.starts[id])
      ensures Waiting(s', s'.starts[id].entry.value)
    {
      AdmittedStaysWaiting(s, e, id);
    }
  }

  lemma RestartClears(s: System)
    ensures Apply(s, Restart).starts == map[] && Apply(s, Restart).runners == map[] && Apply(s, Restart).stops == map[]
    ensures Apply(s, Restart).db == Recovered(s.db)
  {
    hide Recovered;
  }

  lemma AdmittedStaysWaiting(s: System, e: Event, id: Id)
    requires FullInv(s) && Enabled(s, e) && !e.Restart?
    requires id in Apply(s, e).starts && Checked(Apply(s, e).starts[id])
    ensures Waiting(Apply(s, e), Apply(s, e).starts[id].entry.value)
  {
    hide Inv, Enabled, Apply;
    MoverOfStart(e);
    if e.Admit? {
      StartAdmitted(s, e);
    } else if OfStart(e) {
      StartMoved(s, e);
    } else {
      StartsKept(s, e);
    }
    if Mover(e) != Some(id) {
      WaitingKept(s, e, id);
    }
  }

  /** Only its own start takes a waiting entry out of the queue. */
  lemma WaitingKept(s: System, e: Event, id: Id)
    requires FullInv(s) && Enabled(s, e) && !e.Restart?
    requires id in s.starts && Checked(s.starts[id]) && Mover(e) != Some(id)
    ensures Waiting(Apply(s, e), s.starts[id].entry.value)
  {
    var q := s.starts[id].entry.value;
    EntryStep(s, e, q);
    ReportIdsAreReal(s, e);
    StartIsOk(s, id);
    MoverServesNot(s, e, id);
    hide Inv, Apply, AdmittedWaits, FinalOf, MayAdmit, MayAbort, MayChoose, HasActiveEntry, HasRunningReport, LeasedNodes;
  }

  lemma MoverServesNot(s: System, e: Event, id: Id)
    requires Inv(s) && Enabled(s, e) && id in s.starts && Checked(s.starts[id]) && Mover(e) != Some(id)
    ensures Mover(e).Some? && !e.Admit? ==> !Serves(s, Mover(e).value, s.starts[id].entry.value)
  {
    hide Inv, Enabled, Apply;
    MoverOfStart(e);
    if Mover(e).Some? && !e.Admit? {
      StartMoved(s, e);
      if Serves(s, Mover(e).value, s.starts[id].entry.value) {
        SameDispatch(s, Mover(e).value, id);
      }
    }
  }

  lemma SameDispatch(s: System, a: Id, b: Id)
    requires Inv(s) && a in s.starts && b in s.starts && s.starts[a].entry.Some? && s.starts[b].entry.Some?
    requires !s.starts[a].pc.Over? && !s.starts[b].pc.Over?
    ensures a == b
  {}

  lemma {:induction false} RunFullInv(states: seq<System>, events: seq<Event>, i: nat)
    requires IsRun(states, events) && Init(states[0]) && i <= |events|
    ensures FullInv(states[i])
  {
    hide Inv, Apply, Enabled;
    if i == 0 {
      InitInv(states[0]);
    } else {
      RunFullInv(states, events, i - 1);
      StepInv(states[i - 1], events[i - 1]);
      StepKeepsWaiting(states[i - 1], events[i - 1]);
    }
  }

  // ----- entries without a report ---------------------------------------------------------------------

  /** No write by report id can mean an entry without a report. */
  lemma ReportIdsAreReal(s: System, e: Event)
    requires Inv(s) && Enabled(s, e)
    ensures 0 !in s.db.reports
    ensures e.Settle? || e.MarkStartFailed? || e.RefuseLaunch? ==> s.starts[e.start].reportId != 0
    ensures e.Settle? && s.starts[e.start].entry.Some? ==>
      s.starts[e.start].entry.value in s.db.queue &&
      s.db.queue[s.starts[e.start].entry.value].reportId == s.starts[e.start].reportId
    ensures e.Callback? ==> e.report in s.db.reports
  {
    hide OwnReports, OneDispatch, LeasesOwned, EntriesOwned, OneLeasePerNode, OnePending, BoundOnce, Unused,
         MayAdmit, MayAbort, MayChoose, HasActiveEntry, HasRunningReport, LeasedNodes;
    if e.Settle? || e.MarkStartFailed? || e.RefuseLaunch? {
      StartIsOk(s, e.start);
    }
  }

  // ----- claimed but never bound ------------------------------------------------------------------------

  /** No start that is still under way serves the entry. */
  ghost predicate Unserved(s: System, q: Id) {
    forall id | Serves(s, id, q) :: s.starts[id].pc.Over?
  }

  /** Running, without a report, and nobody left to give it one. */
  ghost predicate Stranded(s: System, q: Id) {
    EntryIs(s, q, QRunning) && s.db.queue[q].reportId == 0 && Unserved(s, q)
  }

  /** The event that strands an entry: a business error (no unexpected one) between claim and
      report. */
  predicate Strands(s: System, e: Event, q: Id) {
    e.Abort? && !e.unexpected && Serves(s, e.start, q) &&
    (s.starts[e.start].pc.Claimed? || s.starts[e.start].pc.Chosen? || s.starts[e.start].pc.Marked?)
  }

  /** A live start whose entry runs without a report is between claim and bind. */
  lemma ServesUnbound(s: System, id: Id, q: Id)
    requires FullInv(s) && Serves(s, id, q) && !s.starts[id].pc.Over? && EntryIs(s, q, QRunning) && s.db.queue[q].reportId == 0
    ensures Holds(s.starts[id])
  {
    hide Inv;
    StartIsOk(s, id);
  }

  lemma HolderEnds(s: System, e: Event, q: Id)
    requires Enabled(s, e) && OfStart(e) && !e.Admit?
    requires Serves(s, Mover(e).value, q) && Holds(s.starts[Mover(e).value]) && EntryIs(s, q, QRunning)
    ensures Apply(s, e).starts[Mover(e).value].pc.Over? <==> e.Abort?
  {
    hide RunsInRegion, LeasedNodes, Granted, CalledBackWith, StartFailed, ReleasedBy, SetCase, BoundEntry, ClaimedEntry;
  }

  /** Which starts serve an entry after the event. */
  lemma ServersAfter(s: System, e: Event, id: Id, q: Id)
    requires Enabled(s, e) && !e.Restart? && q in s.db.queue && Serves(Apply(s, e), id, q)
    ensures e.Admit? && e.start == id ==> EntryIs(s, q, QPending)
    ensures !(e.Admit? && e.start == id) ==> Serves(s, id, q)
    ensures !(e.Admit? && e.start == id) && Mover(e) != Some(id) ==> Apply(s, e).starts[id] == s.starts[id]
  {
    hide Enabled, Apply;
    MoverOfStart(e);
    if e.Admit? {
      StartAdmitted(s, e);
    } else if OfStart(e) {
      StartMoved(s, e);
    } else {
      StartsKept(s, e);
    }
  }

  lemma ServersBefore(s: System, e: Event, id: Id, q: Id)
    requires Enabled(s, e) && !e.Restart? && Serves(s, id, q)
    ensures Serves(Apply(s, e), id, q)
    ensures Mover(e) != Some(id) ==> Apply(s, e).starts[id] == s.starts[id]
    ensures Mover(e) == Some(id) ==> !e.Admit? && OfStart(e)
  {
    hide Enabled, Apply;
    MoverOfStart(e);
    if e.Admit? {
      StartAdmitted(s, e);
    } else if OfStart(e) {
      StartMoved(s, e);
    } else {
      StartsKept(s, e);
    }
  }

  /** A stranded entry stays stranded under every event but a restart, which fails it. */
  lemma StrandedUntilRestart(s: System, e: Event, q: Id)
    requires FullInv(s) && Enabled(s, e) && Stranded(s, q)
    ensures Stranded(Apply(s, e), q) <==> !e.Restart?
    ensures e.Restart? ==> EntryIs(Apply(s, e), q, QFailed)
  {
    EntryStep(s, e, q);
    ReportIdsAreReal(s, e);
    if !e.Restart? {
      StrandedEntryKept(s, e, q);
      forall id | Serves(Apply(s, e), id, q)
        ensures Apply(s, e).starts[id].pc.Over?
      {
        hide Apply, Enabled, Inv;
        ServersAfter(s, e, id, q);
        if Mover(e) == Some(id) {
          MoverOfStart(e);
          StartMoved(s, e);
        }
      }
    } else {
      hide Apply, Enabled, Inv;
      assert NextEntry(s, e, q).status.QFailed?;
    }
  }

  lemma StrandedEntryKept(s: System, e: Event, q: Id)
    requires Inv(s) && Enabled(s, e) && Stranded(s, q) && !e.Restart?
    ensures NextEntry(s, e, q) == s.db.queue[q]
  {
    ReportIdsAreReal(s, e);
    hide Inv, FinalOf, MayAdmit, MayChoose, HasActiveEntry, HasRunningReport, LeasedNodes;
  }

  /** An entry becomes stranded exactly when its start raises a business error between the claim
      and the report. */
  lemma StrandedExactlyBy(s: System, e: Event, q: Id)
    requires FullInv(s) && Enabled(s, e) && q in s.db.queue
    ensures !Stranded(s, q) && Stranded(Apply(s, e), q) <==> Strands(s, e, q)
  {
    hide Inv, Apply, Enabled;
    if Strands(s, e, q) {
      StrandsIt(s, e, q);
    }
    if !Stranded(s, q) && Stranded(Apply(s, e), q) {
      WhoStranded(s, e, q);
    }
  }

  lemma StrandsIt(s: System, e: Event, q: Id)
    requires FullInv(s) && Enabled(s, e) && q in s.db.queue && Strands(s, e, q)
    ensures !Stranded(s, q) && Stranded(Apply(s, e), q)
  {
    hide Inv, Apply, Enabled;
    var id := e.start;
    StartIsOk(s, id);
    EntryStep(s, e, q);
    assert NextEntry(s, e, q) == s.db.queue[q];
    HolderEnds(s, e, q);
    forall x | Serves(Apply(s, e), x, q)
      ensures Apply(s, e).starts[x].pc.Over?
    {
      ServersAfter(s, e, x, q);
      if x != id && !s.starts[x].pc.Over? {
        SameDispatch(s, x, id);
      }
    }
  }

  lemma WhoStranded(s: System, e: Event, q: Id)
    requires FullInv(s) && Enabled(s, e) && q in s.db.queue && !Stranded(s, q) && Stranded(Apply(s, e), q)
    ensures Strands(s, e, q)
  {
    hide Inv, Apply, Enabled;
    EntryStep(s, e, q);
    if !EntryIs(s, q, QRunning) {
      RunningOnlyByClaim(s, e, q);
      ServersBefore(s, e, e.start, q);
      ClaimedIsLive(s, e);
    } else {
      UnboundBefore(s, e, q);
      var id :| Serves(s, id, q) && !s.starts[id].pc.Over?;
      ServesUnbound(s, id, q);
      ServersBefore(s, e, id, q);
      HolderEnds(s, e, q);
      MayAbortAt(s, e);
    }
  }

  lemma MayAbortAt(s: System, e: Event)
    requires Enabled(s, e) && e.Abort?
    ensures e.start in s.starts && MayAbort(s.starts[e.start])
  {}

  lemma ClaimedIsLive(s: System, e: Event)
    requires Enabled(s, e) && e.Claim? && s.starts[e.start].seen.QPending?
    ensures !Apply(s, e).starts[e.start].pc.Over?
  {}

  lemma UnboundBefore(s: System, e: Event, q: Id)
    requires Inv(s) && Enabled(s, e) && q in s.db.queue && NextEntry(s, e, q).reportId == 0
    ensures s.db.queue[q].reportId == 0
  {
    hide Apply;
    if e.Bind? && Serves(s, e.start, q) {
      StartIsOk(s, e.start);
    }
  }

  // ----- bound, running, and its report ended -------------------------------------------------------------

  ghost predicate RunsWith(s: System, q: Id, r: Id) {
    EntryIs(s, q, QRunning) && s.db.queue[q].reportId == r && r in s.db.reports
  }

  /** Still running although its report has ended and its start has already looked. */
  ghost predicate Orphaned(s: System, q: Id) {
    q in s.db.queue && RunsWith(s, q, s.db.queue[q].reportId) && EndedReport(s, s.db.queue[q].reportId) &&
    !Unsettled(s, s.db.queue[q].reportId)
  }

  /** The event that orphans an entry: the timeout scan ends its report after the start settled. */
  ghost predicate Orphans(s: System, e: Event, q: Id) {
    e.StopFinish? && e.stop in s.stops && !s.stops[e.stop].byUser &&
    RunsWith(s, q, s.stops[e.stop].reportId) && RunningReport(s, s.stops[e.stop].reportId) &&
    !Unsettled(s, s.stops[e.stop].reportId)
  }

  /** An orphan's report was ended by the timeout scan. */
  lemma OrphanTimedOut(s: System, q: Id)
    requires Inv(s) && Orphaned(s, q)
    ensures s.db.reports[s.db.queue[q].reportId].status.RunFailed? && s.db.reports[s.db.queue[q].reportId].reason.TimedOut?
  {
    hide StartsShape, LeasesOwned, OneLeasePerNode, Unsettled, OnePending, UnboundBeforeRun, BoundOnce;
    var r := s.db.queue[q].reportId;
    assert r != 0;
    assert RunsFor(s.db.queue, r);
    assert EntryExplained(s, r);
  }

  /** The events that end a running report. */
  lemma EndsOnlyBy(s: System, e: Event, r: Id)
    requires Inv(s) && Enabled(s, e) && RunningReport(s, r) && !RunningReport(Apply(s, e), r)
    ensures
      || e.Restart?
      || (e.Callback? && e.report == r)
      || (e.StopFinish? && s.stops[e.stop].reportId == r)
      || ((e.RefuseLaunch? || e.MarkStartFailed?) && s.starts[e.start].reportId == r)
  {
    if WritesReports(e) {
      WrittenReportEnds(s, e, r);
    } else {
      hide Inv, Enabled, Apply;
      OtherEventsKeepReports(s, e);
    }
  }

  lemma WrittenReportEnds(s: System, e: Event, r: Id)
    requires Enabled(s, e) && WritesReports(e) && RunningReport(s, r) && !RunningReport(Apply(s, e), r)
    ensures
      || e.Restart?
      || (e.Callback? && e.report == r)
      || (e.StopFinish? && s.stops[e.stop].reportId == r)
      || ((e.RefuseLaunch? || e.MarkStartFailed?) && s.starts[e.start].reportId == r)
  {
    hide CalledBackWith, StartFailed, UserStopped, ScanTimedOut, Recovered, Closing, OthersKept, NoneRunningFor, Freeing, FinalOf;
    match e
    case AddReport(_, _) =>
    case RefuseLaunch(id) => CalledBackFacts(s.db, s.starts[id].testcase, s.starts[id].reportId, RunFailed);
    case MarkStartFailed(id) => StartFailedFacts(s.db, s.starts[id].testcase, s.starts[id].reportId, s.starts[id].entry.Some?);
    case Callback(k) => CalledBackFacts(s.db, s.runners[k].testcase, k, FinalOf(s.runners[k]));
    case StopFinish(k) => UserStoppedFacts(s.db, s.stops[k].reportId); TimedOutFacts(s.db, s.stops[k].reportId);
    case Restart =>
  }

  /** The start of a bound report serves the entry it is bound to. */
  lemma StartServesBound(s: System, id: Id, q: Id, r: Id)
    requires Inv(s) && id in s.starts && s.starts[id].reportId == r && r != 0 && RunsWith(s, q, r)
    ensures !s.starts[id].pc.Added? && s.starts[id].entry.Some?
    ensures AfterBind(s.starts[id].pc) ==> Serves(s, id, q)
  {
    hide LeasesOwned, EntriesOwned, OneLeasePerNode, OnePending, UnboundBeforeRun, OwnReports, OneDispatch;
    StartIsOk(s, id);
  }

  lemma ReportIsNotZero(s: System, q: Id, r: Id)
    requires Inv(s) && RunsWith(s, q, r)
    ensures r != 0
  {}

  /** A start that has still to settle does not leave without ending its entry or having looked. */
  lemma UnsettledEnds(s: System, e: Event, q: Id, r: Id)
    requires Inv(s) && Enabled(s, e) && RunsWith(s, q, r) && Unsettled(s, r)
    ensures
      || Unsettled(Apply(s, e), r)
      || !NextEntry(s, e, q).status.QRunning?
      || (e.Settle? && RunningReport(s, r) && s.starts[e.start].reportId == r)
  {
    hide Inv, Apply, Enabled;
    ReportIsNotZero(s, q, r);
    var id :| id in s.starts && s.starts[id].reportId == r && WillSettle(s.starts[id].pc);
    StartServesBound(s, id, q, r);
    if !e.Restart? {
      ServersBefore(s, e, id, q);
      if Mover(e) != Some(id) {
        assert id in Apply(s, e).starts;
      } else {
        DebugIsUnserved(s, id, q);
        SettlerMoves(s, e);
      }
    }
  }

  lemma DebugIsUnserved(s: System, id: Id, q: Id)
    requires Inv(s) && Serves(s, id, q)
    ensures !s.starts[id].debug
  {
    StartIsOk(s, id);
  }

  /** A start that will settle still will, or its event settled it. */
  lemma SettlerMoves(s: System, e: Event)
    requires Enabled(s, e) && OfStart(e) && !e.Admit? && WillSettle(s.starts[Mover(e).value].pc) && !s.starts[Mover(e).value].debug
    ensures Mover(e).value in Apply(s, e).starts
    ensures Apply(s, e).starts[Mover(e).value].reportId == s.starts[Mover(e).value].reportId
    ensures e.Settle? || e.MarkStartFailed? || WillSettle(Apply(s, e).starts[Mover(e).value].pc)
  {
    hide RunsInRegion, LeasedNodes, Granted, CalledBackWith, StartFailed, ReleasedBy, SetCase, BoundEntry, ClaimedEntry;
  }

  /** An entry becomes an orphan exactly when the timeout scan ends its report after its start has
      settled: the callback that follows skips the ended report. */
  lemma OrphanedExactlyBy(s: System, e: Event, q: Id)
    requires FullInv(s) && Enabled(s, e) && q in s.db.queue
    ensures !Orphaned(s, q) && Orphaned(Apply(s, e), q) <==> Orphans(s, e, q)
  {
    hide Inv, Apply, Enabled, Orphans;
    if Orphans(s, e, q) {
      OrphansIt(s, e, q);
    }
    if !Orphaned(s, q) && Orphaned(Apply(s, e), q) {
      WhoOrphaned(s, e, q);
    }
  }

  lemma OrphansIt(s: System, e: Event, q: Id)
    requires Inv(s) && Enabled(s, e) && q in s.db.queue && Orphans(s, e, q)
    ensures !Orphaned(s, q) && Orphaned(Apply(s, e), q)
  {
    hide Inv, Apply, Enabled;
    EntryStep(s, e, q);
    assert NextEntry(s, e, q) == s.db.queue[q];
    StartsKept(s, e);
    ScanEnds(s, e);
  }

  lemma ScanEnds(s: System, e: Event)
    requires Enabled(s, e) && e.StopFinish? && !s.stops[e.stop].byUser
    ensures EndedReport(Apply(s, e), s.stops[e.stop].reportId)
  {
    hide ScanTimedOut, Freeing;
    TimedOutFacts(s.db, s.stops[e.stop].reportId);
  }

  lemma WhoOrphaned(s: System, e: Event, q: Id)
    requires FullInv(s) && Enabled(s, e) && q in s.db.queue && !Orphaned(s, q) && Orphaned(Apply(s, e), q)
    ensures Orphans(s, e, q)
  {
    hide Inv, Apply, Enabled, Unsettled;
    EntryStep(s, e, q);
    var r := Apply(s, e).db.queue[q].reportId;
    RunsBoundBefore(s, e, q);
    if Unsettled(s, r) {
      UnsettledEnds(s, e, q, r);
      OtherEventsKeepReports(s, e);
    } else {
      EndsOnlyBy(s, e, r);
      ReportIsNotZero(s, q, r);
      StopExists(s, e);
      if e.RefuseLaunch? || e.MarkStartFailed? {
        FailingIsUnsettled(s, e);
      }
    }
  }

  lemma StopExists(s: System, e: Event)
    requires Enabled(s, e)
    ensures e.StopFinish? ==> e.stop in s.stops
  {}

  lemma FailingIsUnsettled(s: System, e: Event)
    requires Enabled(s, e) && (e.RefuseLaunch? || e.MarkStartFailed?)
    ensures Unsettled(s, s.starts[e.start].reportId)
  {
    assert e.start in s.starts && WillSettle(s.starts[e.start].pc);
  }

  /** An orphan ran with the same report before the event that made it one. */
  lemma RunsBoundBefore(s: System, e: Event, q: Id)
    requires FullInv(s) && Enabled(s, e) && q in s.db.queue && Orphaned(Apply(s, e), q)
    requires q in Apply(s, e).db.queue && Apply(s, e).db.queue[q] == NextEntry(s, e, q)
    ensures RunsWith(s, q, Apply(s, e).db.queue[q].reportId)
  {
    hide Inv, Apply, Enabled;
    var s' := Apply(s, e);
    var r := s'.db.queue[q].reportId;
    ZeroIsNoReport(s, e);
    if !EntryIs(s, q, QRunning) {
      RunningOnlyByClaim(s, e, q);
      StartIsOk(s, e.start);
    } else if e.Bind? && Serves(s, e.start, q) {
      BindLeavesUnsettled(s, e, q);
    } else {
      BoundReportExists(s, q);
    }
  }

  lemma BoundReportExists(s: System, q: Id)
    requires Inv(s) && q in s.db.queue
    ensures s.db.queue[q].reportId != 0 ==> s.db.queue[q].reportId in s.db.reports
  {}

  lemma ZeroIsNoReport(s: System, e: Event)
    requires Inv(s) && Enabled(s, e)
    ensures 0 !in Apply(s, e).db.reports
  {
    hide Inv, Enabled, Apply;
    StepInv(s, e);
    ZeroHasNoReport(Apply(s, e));
  }

  lemma ZeroHasNoReport(s: System)
    requires Inv(s)
    ensures 0 !in s.db.reports
  {}

  lemma BindLeavesUnsettled(s: System, e: Event, q: Id)
    requires Inv(s) && Enabled(s, e) && e.Bind? && Serves(s, e.start, q) && EntryIs(s, q, QRunning)
    ensures Unsettled(Apply(s, e), NextEntry(s, e, q).reportId)
  {
    hide Inv;
    BoundIsUnsettled(Apply(s, e), e.start);
  }

  predicate UserStopEnds(s: System, e: Event, q: Id)
    requires q in s.db.queue
  {
    e.StopFinish? && e.stop in s.stops && s.stops[e.stop].byUser && s.stops[e.stop].reportId == s.db.queue[q].reportId
  }

  /** An orphan stays one under every event but a restart and a user's stop of its report. */
  lemma OrphanUntilStopOrRestart(s: System, e: Event, q: Id)
    requires FullInv(s) && Enabled(s, e) && Orphaned(s, q)
    ensures Orphaned(Apply(s, e), q) <==> !e.Restart? && !UserStopEnds(s, e, q)
  {
    hide Inv, Apply, Enabled, Unsettled;
    EntryStep(s, e, q);
    if e.Restart? || UserStopEnds(s, e, q) {
      assert NextEntry(s, e, q).status.QFailed?;
    } else {
      OrphanEntryKept(s, e, q);
      EndedStays(s, e, s.db.queue[q].reportId);
      StaysSettled(s, e, q);
    }
  }

  lemma EndedStays(s: System, e: Event, r: Id)
    requires Inv(s) && Enabled(s, e) && EndedReport(s, r)
    ensures EndedReport(Apply(s, e), r)
  {
    hide Inv, Apply, Enabled, EntriesAdvance, LeasesAdvance;
    StepAdvances(s, e);
  }

  lemma OrphanEntryKept(s: System, e: Event, q: Id)
    requires FullInv(s) && Enabled(s, e) && Orphaned(s, q) && !e.Restart? && !UserStopEnds(s, e, q)
    ensures NextEntry(s, e, q) == s.db.queue[q]
  {
    var r := s.db.queue[q].reportId;
    ReportIsNotZero(s, q, r);
    if OfStart(e) && !e.Admit? {
      OrphanUnserved(s, e, q);
    }
    hide Inv, Apply, FinalOf, MayAdmit, MayChoose, HasActiveEntry, HasRunningReport, LeasedNodes, Unsettled, AdmittedWaits;
  }

  /** The start an event moves neither serves an orphan nor has its report, except to release
      the leases of a refused launch. */
  lemma OrphanUnserved(s: System, e: Event, q: Id)
    requires FullInv(s) && Enabled(s, e) && Orphaned(s, q) && OfStart(e) && !e.Admit?
    ensures Mover(e).value in s.starts && (e.ReleaseAfterRefusal? || !Serves(s, Mover(e).value, q))
    ensures e.MarkStartFailed? ==> s.starts[e.start].reportId != s.db.queue[q].reportId
  {
    hide Inv, Apply, Enabled;
    StartMoved(s, e);
    var id, r := Mover(e).value, s.db.queue[q].reportId;
    ReportIsNotZero(s, q, r);
    StartIsOk(s, id);
    if e.MarkStartFailed? {
      FailingIsUnsettled(s, e);
    }
    if Serves(s, id, q) && !e.ReleaseAfterRefusal? {
      MoverIsUnbound(s, e);
    }
  }

  lemma MoverIsUnbound(s: System, e: Event)
    requires Enabled(s, e) && OfStart(e) && !e.Admit? && !e.ReleaseAfterRefusal?
    ensures
      var st := s.starts[Mover(e).value];
      WillSettle(st.pc) || BeforeReport(st.pc) || st.pc.Added?
  {
    hide RunsInRegion, LeasedNodes;
  }

  lemma MovedReport(s: System, e: Event)
    requires Enabled(s, e) && OfStart(e) && !e.Admit?
    ensures Mover(e).value in s.starts && Mover(e).value in Apply(s, e).starts
    ensures
      var before, after := s.starts[Mover(e).value], Apply(s, e).starts[Mover(e).value];
      && (after.reportId == before.reportId || (e.AddReport? && after.reportId == e.report && e.report !in s.db.reports))
      && (e.ReleaseAfterRefusal? ==> after.pc.Over?)
  {
    hide RunsInRegion, LeasedNodes, Granted, CalledBackWith, StartFailed, ReleasedBy, SetCase, BoundEntry, ClaimedEntry;
  }

  lemma StaysSettled(s: System, e: Event, q: Id)
    requires FullInv(s) && Enabled(s, e) && Orphaned(s, q) && !e.Restart?
    ensures !Unsettled(Apply(s, e), s.db.queue[q].reportId)
  {
    hide Inv, Apply, Enabled;
    var s', r := Apply(s, e), s.db.queue[q].reportId;
    ReportIsNotZero(s, q, r);
    if Unsettled(s', r) {
      var id :| id in s'.starts && s'.starts[id].reportId == r && WillSettle(s'.starts[id].pc);
      if e.Admit? {
        StartAdmitted(s, e);
      } else if OfStart(e) {
        StartMoved(s, e);
        if Mover(e).value == id {
          MovedReport(s, e);
          OrphanUnserved(s, e, q);
          StartServesBound(s, id, q, r);
          StartIsOk(s, id);
        }
      } else {
        StartsKept(s, e);
      }
    }
  }
}
