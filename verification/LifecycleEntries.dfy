/** What one event does to one queue entry and to the starts. */
module LifecycleEntries {
  import opened Options
  import opened ExecutionTables
  import opened CommitFacts
  import opened Lifecycle
  import opened LifecycleInvariant
  import opened LifecycleSteps
  import opened LifecycleLaunchSteps
  import opened LifecycleStepProof

  // ----- one entry through one event ------------------------------------------------------------------

  predicate EntryIs(s: System, q: Id, status: QueueStatus) { q in s.db.queue && s.db.queue[q].status == status }

  predicate IsLive(status: QueueStatus) { status.QRunning? || status.QCanceling? }

  predicate Serves(s: System, id: Id, q: Id) { id in s.starts && s.starts[id].entry == Some(q) }

  predicate EndedReport(s: System, r: Id) { r in s.db.reports && !s.db.reports[r].status.RunIng? }

  predicate RunningReport(s: System, r: Id) { r in s.db.reports && s.db.reports[r].status.RunIng? }

  /** The entry after the event, told from the entry alone. */
  function NextEntry(s: System, e: Event, q: Id): Entry
    requires Enabled(s, e) && q in s.db.queue
  {
    var x := s.db.queue[q];
    match e
    case Cancel(p) => if p == q then x.(status := QCanceled) else x
    case Claim(id) => if Serves(s, id, q) && s.starts[id].seen.QPending? then x.(status := QRunning) else x
    case Bind(id) => if Serves(s, id, q) && x.status.QRunning? then x.(reportId := s.starts[id].reportId) else x
    case RefuseLaunch(id) =>
      if x.reportId == s.starts[id].reportId && RunningReport(s, x.reportId) && IsLive(x.status) then x.(status := QFailed) else x
    case MarkStartFailed(id) =>
      if s.starts[id].entry.Some? && x.reportId == s.starts[id].reportId then x.(status := QFailed) else x
    case Abort(id, unexpected) => if unexpected && Serves(s, id, q) then x.(status := QFailed) else x
    case Settle(id) =>
      if Serves(s, id, q) && EndedReport(s, s.starts[id].reportId)
      then x.(status := if s.db.reports[s.starts[id].reportId].status.RunSuccess? then QSuccess else QFailed) else x
    case Callback(r) =>
      if x.reportId == r && RunningReport(s, r) && IsLive(x.status)
      then x.(status := if FinalOf(s.runners[r]).RunSuccess? then QSuccess else QFailed) else x
    case StopFinish(k) => if s.stops[k].byUser && x.reportId == s.stops[k].reportId then x.(status := QFailed) else x
    case Restart => if IsLive(x.status) then x.(status := QFailed) else x
    case _ => x
  }

  lemma ClaimEntry(s: System, id: Id, q: Id)
    requires id in s.starts && s.starts[id].entry.Some? && s.starts[id].entry.value in s.db.queue && q in s.db.queue
    ensures q in DoClaim(s, id).db.queue
    ensures DoClaim(s, id).db.queue[q] ==
      if Serves(s, id, q) && s.starts[id].seen.QPending? then s.db.queue[q].(status := QRunning) else s.db.queue[q]
  {}

  lemma BindEntry(s: System, id: Id, q: Id)
    requires id in s.starts && (s.starts[id].entry.Some? ==> s.starts[id].entry.value in s.db.queue) && q in s.db.queue
    ensures q in DoBind(s, id).db.queue
    ensures DoBind(s, id).db.queue[q] ==
      if Serves(s, id, q) && s.db.queue[q].status.QRunning?
      then s.db.queue[q].(reportId := s.starts[id].reportId) else s.db.queue[q]
  {}

  lemma ClosedEntry(db: Db, r: Id, status: QueueStatus, liveOnly: bool, q: Id)
    requires q in db.queue
    ensures q in CloseEntry(db, r, status, liveOnly).queue
    ensures CloseEntry(db, r, status, liveOnly).queue[q] ==
      if db.queue[q].reportId == r && (liveOnly ==> IsLive(db.queue[q].status)) then db.queue[q].(status := status) else db.queue[q]
  {}

  lemma CalledBackEntry(db: Db, testcase: Id, r: Id, final: CaseStatus, q: Id)
    requires q in db.queue
    ensures
      var d := CalledBackWith(db, testcase, r, final);
      q in d.queue && d.queue[q] ==
        if db.queue[q].reportId == r && r in db.reports && db.reports[r].status.RunIng? && IsLive(db.queue[q].status)
        then db.queue[q].(status := if final.RunSuccess? then QSuccess else QFailed) else db.queue[q]
  {
    hide CloseEntry, IsLive;
    ClosedEntry(SetReport(SetCase(db, testcase, final), r, final), r, ClosedStatus(final), true, q);
  }

  lemma StartFailedEntry(db: Db, testcase: Id, r: Id, queued: bool, q: Id)
    requires q in db.queue
    ensures
      var d := StartFailed(db, testcase, r, queued);
      q in d.queue && d.queue[q] ==
        if queued && db.queue[q].reportId == r then db.queue[q].(status := QFailed) else db.queue[q]
  {
    hide CloseEntry, IsLive;
    ClosedEntry(FailReport(SetCase(db, testcase, RunFailed), r, StartRefused), r, QFailed, false, q);
  }

  lemma AbortedEntry(s: System, id: Id, unexpected: bool, q: Id)
    requires id in s.starts && q in s.db.queue
    ensures q in Aborted(s, id, unexpected).db.queue
    ensures Aborted(s, id, unexpected).db.queue[q] ==
      if unexpected && Serves(s, id, q) then s.db.queue[q].(status := QFailed) else s.db.queue[q]
  {}

  lemma SettledEntry(s: System, id: Id, q: Id)
    requires id in s.starts && q in s.db.queue
    ensures q in Settled(s, id).db.queue
    ensures Settled(s, id).db.queue[q] ==
      if Serves(s, id, q) && EndedReport(s, s.starts[id].reportId)
      then s.db.queue[q].(status := if s.db.reports[s.starts[id].reportId].status.RunSuccess? then QSuccess else QFailed)
      else s.db.queue[q]
  {}

  lemma StoppedEntry(db: Db, r: Id, q: Id)
    requires r in db.reports && q in db.queue
    ensures q in UserStopped(db, r).queue && q in ScanTimedOut(db, r).queue
    ensures UserStopped(db, r).queue[q] == if db.queue[q].reportId == r then db.queue[q].(status := QFailed) else db.queue[q]
    ensures ScanTimedOut(db, r).queue[q] == db.queue[q]
  {
    hide CloseEntry, IsLive;
    ClosedEntry(FailReport(SetCase(db, db.reports[r].testcase, RunFailed), r, StoppedByUser), r, QFailed, false, q);
  }

  predicate WritesEntry(e: Event) {
    e.Claim? || e.Bind? || e.RefuseLaunch? || e.MarkStartFailed? || e.Abort? || e.Settle?
  }

  lemma StartEntryStep(s: System, e: Event, q: Id)
    requires Enabled(s, e) && OfStart(e) && q in s.db.queue
    ensures q in Apply(s, e).db.queue && Apply(s, e).db.queue[q] == NextEntry(s, e, q)
  {
    hide MayAdmit, MayChoose, MayAbort, LeasedNodes, ReleasedBy, Granted, Serves, IsLive, Freeing, ClosedStatus, EndedReport,
         RunningReport;
    if WritesEntry(e) {
      EntryWritten(s, e, q);
    } else {
      match e
      case LeaseNodes(id, grants) => GrantedOnlyLeases(s.db, s.starts[id].reportId, grants);
      case ReleaseAfterRefusal(id) => ReleasedFacts(s.db, s.starts[id].reportId);
      case _ =>
    }
  }

  lemma EntryWritten(s: System, e: Event, q: Id)
    requires Enabled(s, e) && WritesEntry(e) && q in s.db.queue
    ensures q in Apply(s, e).db.queue && Apply(s, e).db.queue[q] == NextEntry(s, e, q)
  {
    hide MayAbort, DoClaim, DoBind, CalledBackWith, StartFailed, Aborted, Settled, Serves, IsLive, EndedReport;
    match e
    case Claim(id) => ClaimEntry(s, id, q);
    case Bind(id) => BindEntry(s, id, q);
    case RefuseLaunch(id) => CalledBackEntry(s.db, s.starts[id].testcase, s.starts[id].reportId, RunFailed, q);
    case MarkStartFailed(id) => StartFailedEntry(s.db, s.starts[id].testcase, s.starts[id].reportId, s.starts[id].entry.Some?, q);
    case Abort(id, unexpected) => AbortedEntry(s, id, unexpected, q);
    case Settle(id) => SettledEntry(s, id, q);
  }

  lemma OtherEntryStep(s: System, e: Event, q: Id)
    requires Enabled(s, e) && !OfStart(e) && q in s.db.queue
    ensures q in Apply(s, e).db.queue && Apply(s, e).db.queue[q] == NextEntry(s, e, q)
  {
    hide HasActiveEntry, HasRunningReport, ReleasedBy, FinalOf, CalledBackWith, UserStopped, ScanTimedOut, Recovered, IsLive,
         Freeing, ClosedStatus;
    match e
    case Callback(r) => CalledBackEntry(s.db, s.runners[r].testcase, r, FinalOf(s.runners[r]), q);
    case RunnerRelease(r) => ReleasedFacts(s.db, r);
    case StopRelease(k) => ReleasedFacts(s.db, s.stops[k].reportId);
    case StopFinish(k) => StoppedEntry(s.db, s.stops[k].reportId, q);
    case Restart => RecoveredQueue(s.db);
    case _ =>
  }

  lemma RecoveredQueue(db: Db)
    ensures Recovered(db).queue.Keys == db.queue.Keys
    ensures forall q | q in db.queue ::
      Recovered(db).queue[q] == if IsLive(db.queue[q].status) then db.queue[q].(status := QFailed) else db.queue[q]
  {}

  /** No event touches an entry in any other way. */
  lemma EntryStep(s: System, e: Event, q: Id)
    requires Enabled(s, e) && q in s.db.queue
    ensures q in Apply(s, e).db.queue && Apply(s, e).db.queue[q] == NextEntry(s, e, q)
  {
    hide NextEntry, Apply, Enabled;
    if OfStart(e) {
      StartEntryStep(s, e, q);
    } else {
      OtherEntryStep(s, e, q);
    }
  }

  // ----- the starts through one event -------------------------------------------------------------------

  /** The start an event moves. */
  function Mover(e: Event): Option<Id> {
    match e
    case Admit(id, _, _, _, _, _) => Some(id)
    case Claim(id) => Some(id)
    case ChooseSlaves(id, _) => Some(id)
    case MarkRunning(id) => Some(id)
    case AddReport(id, _) => Some(id)
    case Bind(id) => Some(id)
    case LeaseNodes(id, _) => Some(id)
    case Launch(id) => Some(id)
    case RefuseLaunch(id) => Some(id)
    case MarkStartFailed(id) => Some(id)
    case ReleaseAfterRefusal(id) => Some(id)
    case Abort(id, _) => Some(id)
    case Settle(id) => Some(id)
    case _ => None
  }

  lemma MoverOfStart(e: Event)
    ensures OfStart(e) <==> Mover(e).Some?
  {}

  /** A start moves within its entry, and no other start does. */
  lemma StartMoved(s: System, e: Event)
    requires Enabled(s, e) && OfStart(e) && !e.Admit?
    ensures Mover(e).Some? && Mover(e).value in s.starts && !s.starts[Mover(e).value].pc.Over?
    ensures
      var id, starts' := Mover(e).value, Apply(s, e).starts;
      id in starts' && starts' == s.starts[id := starts'[id]] && starts'[id].entry == s.starts[id].entry &&
      !starts'[id].pc.Admitted?
  {
    hide RunsInRegion, LeasedNodes, Granted, CalledBackWith, StartFailed, ReleasedBy, SetCase, BoundEntry, ClaimedEntry;
  }

  lemma StartAdmitted(s: System, e: Event)
    requires Enabled(s, e) && e.Admit?
    ensures e.start !in s.starts && Apply(s, e).db == s.db && Apply(s, e).runners == s.runners
    ensures
      var starts' := Apply(s, e).starts;
      e.start in starts' && starts' == s.starts[e.start := starts'[e.start]] && starts'[e.start].entry == e.queued &&
      starts'[e.start].pc.Admitted? && starts'[e.start].reportId == 0
    ensures e.queued.Some? ==> EntryIs(s, e.queued.value, QPending)
  {
    hide DispatcherFree, HasActiveEntry;
  }

  lemma StartsKept(s: System, e: Event)
    requires Enabled(s, e) && !OfStart(e) && !e.Restart?
    ensures Apply(s, e).starts == s.starts
  {
    hide HasActiveEntry, HasRunningReport, CalledBackWith, ReleasedBy, Enqueued, Cancelled, UserStopped, ScanTimedOut, FinalOf;
  }

  // ----- which entries come to run, and which are new ---------------------------------------------------

  /** Only the claim of its own start makes an entry running. */
  lemma RunningOnlyByClaim(s: System, e: Event, q: Id)
    requires Enabled(s, e) && EntryIs(Apply(s, e), q, QRunning) && !EntryIs(s, q, QRunning)
    ensures e.Claim? && Serves(s, e.start, q) && s.starts[e.start].pc.Admitted? && s.starts[e.start].seen.QPending?
  {
    if q in s.db.queue {
      RunsByClaim(s, e, q);
    } else {
      NewEntryIsPending(s, e, q);
    }
  }

  lemma RunsByClaim(s: System, e: Event, q: Id)
    requires Enabled(s, e) && q in s.db.queue && EntryIs(Apply(s, e), q, QRunning) && !EntryIs(s, q, QRunning)
    ensures e.Claim? && Serves(s, e.start, q) && s.starts[e.start].pc.Admitted? && s.starts[e.start].seen.QPending?
  {
    EntryStep(s, e, q);
    hide Apply, FinalOf, MayAdmit, MayAbort, MayChoose, HasActiveEntry, HasRunningReport, LeasedNodes;
  }

  lemma NewEntryIsPending(s: System, e: Event, q: Id)
    requires Enabled(s, e) && q !in s.db.queue && q in Apply(s, e).db.queue
    ensures e.Enqueue? && e.entry == q && Apply(s, e).db.queue[q] == Entry(e.testcase, e.region, QPending, 0)
  {
    if !e.Enqueue? {
      hide Apply, Enabled;
      if OfStart(e) {
        StartsAddNoEntry(s, e);
      } else {
        OthersAddNoEntry(s, e);
      }
    }
  }

  lemma OthersAddNoEntry(s: System, e: Event)
    requires Enabled(s, e) && !OfStart(e) && !e.Enqueue?
    ensures Apply(s, e).db.queue.Keys == s.db.queue.Keys
  {
    hide HasRunningReport, FinalOf, ReleasedBy, CalledBackWith, UserStopped, ScanTimedOut, Recovered, Freeing;
    match e
    case Callback(r) => CalledBackKeys(s.db, s.runners[r].testcase, r, FinalOf(s.runners[r]));
    case RunnerRelease(r) => ReleasedFacts(s.db, r);
    case StopRelease(k) => ReleasedFacts(s.db, s.stops[k].reportId);
    case StopFinish(k) => StoppedKeys(s.db, s.stops[k].reportId);
    case Restart => RecoveredQueue(s.db);
    case _ =>
  }

  lemma StartsAddNoEntry(s: System, e: Event)
    requires Enabled(s, e) && OfStart(e)
    ensures Apply(s, e).db.queue.Keys == s.db.queue.Keys
  {
    if WritesEntry(e) {
      hide Apply, Enabled;
      WritersAddNoEntry(s, e);
    } else {
      hide MayAdmit, MayAbort, MayChoose, LeasedNodes, ReleasedBy, Granted, Freeing, SetCase;
      match e
      case MarkRunning(id) => SetCaseKeepsQueue(s.db, s.starts[id].testcase, RunIng);
      case LeaseNodes(id, grants) => GrantedOnlyLeases(s.db, s.starts[id].reportId, grants);
      case ReleaseAfterRefusal(id) => ReleasedFacts(s.db, s.starts[id].reportId);
      case _ =>
    }
  }

  lemma SetCaseKeepsQueue(db: Db, testcase: Id, status: CaseStatus)
    ensures SetCase(db, testcase, status).queue == db.queue
  {}

  lemma WritersAddNoEntry(s: System, e: Event)
    requires Enabled(s, e) && WritesEntry(e)
    ensures Apply(s, e).db.queue.Keys == s.db.queue.Keys
  {
    hide MayAbort, CalledBackWith, StartFailed, DoClaim, DoBind, Aborted, Settled;
    match e
    case Claim(id) => ClaimKeys(s, id);
    case Bind(id) => BindKeys(s, id);
    case RefuseLaunch(id) => CalledBackKeys(s.db, s.starts[id].testcase, s.starts[id].reportId, RunFailed);
    case MarkStartFailed(id) => StartFailedKeys(s.db, s.starts[id].testcase, s.starts[id].reportId, s.starts[id].entry.Some?);
    case Abort(id, unexpected) => EndKeys(s, id, unexpected);
    case Settle(id) => EndKeys(s, id, false);
  }

  lemma ClaimKeys(s: System, id: Id)
    requires id in s.starts && s.starts[id].entry.Some? && s.starts[id].entry.value in s.db.queue
    ensures DoClaim(s, id).db.queue.Keys == s.db.queue.Keys
  {}

  lemma BindKeys(s: System, id: Id)
    requires id in s.starts && (s.starts[id].entry.Some? ==> s.starts[id].entry.value in s.db.queue)
    ensures DoBind(s, id).db.queue.Keys == s.db.queue.Keys
  {}

  lemma EndKeys(s: System, id: Id, unexpected: bool)
    requires id in s.starts
    ensures Aborted(s, id, unexpected).db.queue.Keys == Settled(s, id).db.queue.Keys == s.db.queue.Keys
  {}

  lemma CloseKeys(db: Db, r: Id, status: QueueStatus, liveOnly: bool)
    ensures CloseEntry(db, r, status, liveOnly).queue.Keys == db.queue.Keys
  {}

  lemma CalledBackKeys(db: Db, testcase: Id, r: Id, final: CaseStatus)
    ensures CalledBackWith(db, testcase, r, final).queue.Keys == db.queue.Keys
  {
    hide CloseEntry, ClosedStatus;
    CloseKeys(SetReport(SetCase(db, testcase, final), r, final), r, ClosedStatus(final), true);
  }

  lemma StartFailedKeys(db: Db, testcase: Id, r: Id, queued: bool)
    ensures StartFailed(db, testcase, r, queued).queue.Keys == db.queue.Keys
  {
    hide CloseEntry;
    CloseKeys(FailReport(SetCase(db, testcase, RunFailed), r, StartRefused), r, QFailed, false);
  }

  lemma StoppedKeys(db: Db, r: Id)
    requires r in db.reports
    ensures UserStopped(db, r).queue.Keys == ScanTimedOut(db, r).queue.Keys == db.queue.Keys
  {
    hide CloseEntry, ScanTimedOut;
    CloseKeys(FailReport(SetCase(db, db.reports[r].testcase, RunFailed), r, StoppedByUser), r, QFailed, false);
    TimedOutFacts(db, r);
  }
}
