/** Every commit of the execution lifecycle keeps the invariant, event by event. */
module LifecycleSteps {
  import opened Options
  import opened ExecutionTables
  import opened CommitFacts
  import opened Lifecycle
  import opened LifecycleInvariant
  import opened LifecycleFrames

  // ----- facts read off the invariant -------------------------------------------------------------

  lemma StartIsOk(s: System, id: Id)
    requires Inv(s) && id in s.starts
    ensures StartOk(s.starts[id], s.db.queue, s.db.reports.Keys)
    ensures s.runners.Keys <= s.db.reports.Keys
    ensures HasNoLease(s.starts[id]) ==> !Leasing(s.db.leases, s.starts[id].reportId)
  {}

  lemma UnusedDoesNotRun(queue: map<Id, Entry>, report: Id)
    requires Unused(queue, report)
    ensures !RunsFor(queue, report)
  {}

  lemma ReleasedHasNone(leases: map<Id, Lease>, report: Id)
    requires forall l | l in leases && leases[l].reportId == report :: !leases[l].status.Leased?
    ensures !Leasing(leases, report)
  {}

  // ----- changes outside the invariant ---------------------------------------------------------

  ghost predicate SameCore(s: System, s': System) {
    && s'.starts == s.starts && s'.runners == s.runners
    && s'.db.queue == s.db.queue && s'.db.reports == s.db.reports && s'.db.leases == s.db.leases
  }

  lemma SameOwners(s: System, s': System, r: Id)
    requires s'.starts == s.starts && s'.runners == s.runners
    ensures LeaseOwned(s, r) ==> LeaseOwned(s', r)
    ensures EntryOwned(s, r) ==> EntryOwned(s', r)
    ensures Unsettled(s, r) ==> Unsettled(s', r)
  {}

  lemma SameCoreKeeps(s: System, s': System)
    requires Inv(s) && SameCore(s, s')
    ensures Inv(s')
  {
    hide StartsShape, QueueShape, LeasesOwned, EntriesOwned, OneLeasePerNode, Compatible, Freeing, LeaseOwned,
         EntryOwned, Unsettled, RunsFor, Leasing;
    QueueShapeSame(s.db, s'.db);
    CompatibleRefl(s.db.queue);
    FreeingRefl(s.db.leases);
    forall r
      ensures LeaseOwned(s, r) ==> LeaseOwned(s', r)
      ensures EntryExplained(s, r) ==> EntryExplained(s', r)
    {
      SameOwners(s, s', r);
    }
    TablesStep(s, s');
  }

  // ----- the queue -------------------------------------------------------------------------------

  lemma QueueMoveKeeps(s: System, s': System)
    requires Inv(s) && QueueShape(s'.db) && s'.starts == s.starts && s'.runners == s.runners
    requires Compatible(s.db.queue, s'.db.queue) && s'.db.reports == s.db.reports && s'.db.leases == s.db.leases
    requires forall r | RunsFor(s'.db.queue, r) :: RunsFor(s.db.queue, r)
    ensures Inv(s')
  {
    hide Inv, QueueShape, Compatible, Freeing, LeaseOwned, EntryOwned, Unsettled, RunsFor, Leasing;
    FreeingRefl(s.db.leases);
    forall r
      ensures LeaseOwned(s, r) ==> LeaseOwned(s', r)
      ensures EntryExplained(s, r) ==> EntryExplained(s', r)
    {
      SameOwners(s, s', r);
    }
    TablesStep(s, s');
  }

  lemma EnqueueKeeps(s: System, q: Id, testcase: Id, region: string)
    requires Inv(s) && q !in s.db.queue && !HasActiveEntry(s.db, testcase, region)
    ensures Inv(s.(db := Enqueued(s.db, q, testcase, region)))
  {
    hide StartsShape, QueueShape, LeasesOwned, EntriesOwned, HasActiveEntry, OneLeasePerNode, Compatible;
    EnqueueKeepsShape(s.db, q, testcase, region);
    MovesAreCompatible(s.db, q, testcase, region);
    QueueMoveKeeps(s, s.(db := Enqueued(s.db, q, testcase, region)));
  }

  lemma CancelKeeps(s: System, q: Id)
    requires Inv(s) && q in s.db.queue && s.db.queue[q].status.QPending?
    ensures Inv(s.(db := Cancelled(s.db, q)))
  {
    hide StartsShape, QueueShape, LeasesOwned, EntriesOwned, OneLeasePerNode, Compatible;
    MovesKeepShape(s.db, q);
    MovesAreCompatible(s.db, q, 0, "");
    QueueMoveKeeps(s, s.(db := Cancelled(s.db, q)));
  }

  // ----- starts before their report ----------------------------------------------------------------

  lemma OwnersWhenAdded(s: System, s': System, id: Id, st: Start, r: Id)
    requires id !in s.starts && s'.starts == s.starts[id := st] && s'.runners == s.runners
    ensures LeaseOwned(s, r) ==> LeaseOwned(s', r)
    ensures EntryOwned(s, r) ==> EntryOwned(s', r)
    ensures Unsettled(s, r) ==> Unsettled(s', r)
  {
    assert forall x | x in s.starts :: x in s'.starts && s'.starts[x] == s.starts[x];
  }

  lemma AdmittedShape(s: System, e: Event)
    requires QueueShape(s.db) && StartsShape(s) && e.Admit? && MayAdmit(s, e)
    ensures StartsShape(DoAdmit(s, e.start, e.testcase, e.region, e.queued, e.local, e.debug))
  {
    hide Unused;
    var starts' := DoAdmit(s, e.start, e.testcase, e.region, e.queued, e.local, e.debug).starts;
    assert OwnReports(starts');
    assert OneDispatch(starts');
    assert AllOk(starts', s.db.queue, s.db.reports.Keys);
  }

  lemma AdmitKeeps(s: System, e: Event)
    requires Inv(s) && e.Admit? && MayAdmit(s, e)
    ensures Inv(DoAdmit(s, e.start, e.testcase, e.region, e.queued, e.local, e.debug))
  {
    hide StartsShape, QueueShape, OneLeasePerNode, LeaseOwned, EntryOwned, Unsettled, RunsFor, Leasing, MayAdmit;
    AdmittedShape(s, e);
    assert e.start !in s.starts by {
      MayAdmitFresh(s, e);
    }
    var s' := DoAdmit(s, e.start, e.testcase, e.region, e.queued, e.local, e.debug);
    var st := s'.starts[e.start];
    forall r
      ensures LeaseOwned(s, r) ==> LeaseOwned(s', r)
      ensures EntryExplained(s, r) ==> EntryExplained(s', r)
    {
      OwnersWhenAdded(s, s', e.start, st, r);
    }
    FreeingRefl(s.db.leases);
    LeasesFrame(s, s');
    EntriesFrame(s, s');
  }

  lemma MayAdmitFresh(s: System, e: Event)
    requires e.Admit? && MayAdmit(s, e)
    ensures e.start !in s.starts
  {}

  /** A start moves between positions with the same duties; reports and leases stay. */
  lemma StartMoveKeeps(s: System, s': System, id: Id, st: Start)
    requires Inv(s) && QueueShape(s'.db) && id in s.starts && s'.starts == s.starts[id := st] && s'.runners == s.runners
    requires st.entry == s.starts[id].entry && st.reportId == s.starts[id].reportId && !s.starts[id].pc.Over?
    requires Compatible(s.db.queue, s'.db.queue) && s'.db.reports == s.db.reports && s'.db.leases == s.db.leases
    requires StartOk(st, s'.db.queue, s'.db.reports.Keys)
    requires OwesRelease(s.starts[id].pc) ==> OwesRelease(st.pc)
    requires SameDuties(s.starts[id].pc, st.pc)
    requires HasNoLease(st) ==> HasNoLease(s.starts[id]) || !Leasing(s.db.leases, st.reportId)
    requires forall r | RunsFor(s'.db.queue, r) :: RunsFor(s.db.queue, r)
    ensures Inv(s')
  {
    hide StartOk, AllOk, OwnReports, OneDispatch, QueueShape, OneLeasePerNode, Compatible, LeaseOwned, Leasing, Freeing,
         EntryOwned, RunsFor, Unsettled;
    StartIsOk(s, id);
    FreeingRefl(s.db.leases);
    forall r
      ensures LeaseOwned(s, r) ==> LeaseOwned(s', r)
      ensures EntryExplained(s, r) ==> EntryExplained(s', r)
    {
      if LeaseOwned(s, r) {
        OwnersWhenMoved(s, s', id, st, r);
      }
      if EntryOwned(s, r) {
        EntryOwnersWhenMoved(s, s', id, st, r);
      }
      if Unsettled(s, r) {
        UnsettledWhenMoved(s, s', id, st, r);
      }
    }
    StartStep(s, s', id, st);
  }

  predicate SameDuties(a: StartPc, b: StartPc) {
    && (OwesEntry(a) ==> OwesEntry(b))
    && (WillSettle(a) ==> WillSettle(b))
  }

  lemma ClaimKeeps(s: System, id: Id)
    requires Inv(s) && StartAt(s, id, Admitted) && s.starts[id].entry.Some? && s.starts[id].entry.value in s.db.queue
    ensures Inv(DoClaim(s, id))
  {
    hide AllOk, OwnReports, OneDispatch, QueueShape, OneLeasePerNode, LeasesOwned, EntriesOwned, Compatible;
    var s' := DoClaim(s, id);
    var q := s.starts[id].entry.value;
    StartIsOk(s, id);
    CompatibleRefl(s.db.queue);
    MovesKeepShape(s.db, q);
    MovesAreCompatible(s.db, q, 0, "");
    ClaimRuns(s.db, q);
    StartMoveKeeps(s, s', id, s'.starts[id]);
  }

  lemma ClaimRuns(db: Db, q: Id)
    requires q in db.queue && db.queue[q].reportId == 0
    ensures forall r | RunsFor(ClaimedEntry(db, q).queue, r) :: RunsFor(db.queue, r)
  {}

  lemma ChooseKeeps(s: System, id: Id, nodes: set<Id>)
    requires Inv(s) && id in s.starts && MayChoose(s, s.starts[id], nodes)
    ensures Inv(DoChooseSlaves(s, id, nodes))
  {
    hide AllOk, OwnReports, OneDispatch, QueueShape, OneLeasePerNode, LeasesOwned, EntriesOwned, Compatible,
         LeasedNodes, RunsInRegion, Unused;
    StartIsOk(s, id);
    CompatibleRefl(s.db.queue);
    var s' := DoChooseSlaves(s, id, nodes);
    StartMoveKeeps(s, s', id, s'.starts[id]);
  }

  lemma MarkRunningKeeps(s: System, id: Id)
    requires Inv(s) && StartAt(s, id, Chosen)
    ensures Inv(DoMarkRunning(s, id))
  {
    hide AllOk, OwnReports, OneDispatch, QueueShape, OneLeasePerNode, LeasesOwned, EntriesOwned, Compatible, Unused;
    StartIsOk(s, id);
    CompatibleRefl(s.db.queue);
    var s' := DoMarkRunning(s, id);
    QueueShapeSame(s.db, s'.db);
    StartMoveKeeps(s, s', id, s'.starts[id]);
  }

  /** Ending the entry of the only live queued start disturbs no other start. */
  lemma AbortedShape(s: System, id: Id, unexpected: bool)
    requires StartsShape(s) && id in s.starts && MayAbort(s.starts[id])
    ensures StartsShape(Aborted(s, id, unexpected))
  {
    hide Unused, OwnReports, OneDispatch;
    var s' := Aborted(s, id, unexpected);
    AbortedFacts(s, id, unexpected);
    StartReplaced(s.starts, id, s'.starts[id]);
    forall x | x in s'.starts
      ensures StartOk(s'.starts[x], s'.db.queue, s'.db.reports.Keys)
    {
      assert StartOk(s.starts[x], s.db.queue, s.db.reports.Keys);
      UnusedClosing(s.db.queue, s'.db.queue, s.starts[x].reportId);
      if x != id && Holds(s.starts[x]) {
        OtherEntry(s.starts, id, x);
      }
    }
  }

  lemma OtherEntry(starts: map<Id, Start>, id: Id, x: Id)
    requires OneDispatch(starts) && id in starts && x in starts && x != id
    requires !starts[id].pc.Over? && !starts[x].pc.Over? && starts[x].entry.Some?
    ensures starts[id].entry.None?
  {}

  lemma UnusedClosing(a: map<Id, Entry>, b: map<Id, Entry>, report: Id)
    requires Closing(a, b)
    ensures Unused(a, report) ==> Unused(b, report)
  {}

  lemma AbortedFacts(s: System, id: Id, unexpected: bool)
    requires id in s.starts
    ensures
      var a := Aborted(s, id, unexpected);
      && Closing(s.db.queue, a.db.queue) && a.db.reports == s.db.reports && a.db.leases == s.db.leases
      && a.starts == s.starts[id := s.starts[id].(pc := Over)] && a.runners == s.runners
      && forall q | q in s.db.queue && s.starts[id].entry != Some(q) :: a.db.queue[q] == s.db.queue[q]
  {}

  lemma AbortKeeps(s: System, id: Id, unexpected: bool)
    requires Inv(s) && id in s.starts && MayAbort(s.starts[id])
    ensures Inv(Aborted(s, id, unexpected))
  {
    hide StartsShape, QueueShape, OneLeasePerNode, LeaseOwned, EntryOwned, Unsettled, RunsFor, Leasing, Closing, Aborted, Freeing;
    var s' := Aborted(s, id, unexpected);
    AbortedShape(s, id, unexpected);
    AbortedFacts(s, id, unexpected);
    ClosingKeepsShape(s.db, s'.db);
    var st := s'.starts[id];
    forall r
      ensures LeaseOwned(s, r) ==> LeaseOwned(s', r)
      ensures EntryExplained(s, r) ==> EntryExplained(s', r)
      ensures RunsFor(s'.db.queue, r) ==> RunsFor(s.db.queue, r)
    {
      if LeaseOwned(s, r) {
        OwnersWhenMoved(s, s', id, st, r);
      }
      if EntryOwned(s, r) {
        EntryOwnersWhenMoved(s, s', id, st, r);
      }
      if Unsettled(s, r) {
        UnsettledWhenMoved(s, s', id, st, r);
      }
      if RunsFor(s'.db.queue, r) {
        ClosingRuns(s.db.queue, s'.db.queue, r);
      }
    }
    FreeingRefl(s.db.leases);
    LeasesFrame(s, s');
    EntriesFrame(s, s');
  }

  // ----- the report and its binding -------------------------------------------------------------------

  lemma AddedShape(s: System, id: Id, r: Id)
    requires QueueShape(s.db) && StartsShape(s) && StartAt(s, id, Marked) && r > 0 && r !in s.db.reports
    ensures QueueShape(DoAddReport(s, id, r).db) && StartsShape(DoAddReport(s, id, r))
    ensures !RunsFor(s.db.queue, r)
  {
    hide OwnReports, OneDispatch, OnePending, UnboundBeforeRun;
    var s' := DoAddReport(s, id, r);
    assert Unused(s.db.queue, r);
    assert Fresh(s.starts, r) by {
      forall x | x in s.starts
        ensures s.starts[x].reportId != r
      {
        assert StartOk(s.starts[x], s.db.queue, s.db.reports.Keys);
      }
    }
    CompatibleRefl(s.db.queue);
    assert StartOk(s.starts[id], s.db.queue, s.db.reports.Keys);
    StartsStep(s, s', id, s'.starts[id]);
  }

  lemma AddReportKeeps(s: System, id: Id, r: Id)
    requires Inv(s) && StartAt(s, id, Marked) && r > 0 && r !in s.db.reports
    ensures Inv(DoAddReport(s, id, r))
  {
    hide StartsShape, QueueShape, OneLeasePerNode, LeaseOwned, EntryOwned, Unsettled, RunsFor, Leasing, Freeing;
    AddedShape(s, id, r);
    StartIsOk(s, id);
    var s' := DoAddReport(s, id, r);
    var st := s'.starts[id];
    forall x
      ensures LeaseOwned(s, x) ==> LeaseOwned(s', x)
      ensures EntryExplained(s, x) ==> EntryExplained(s', x)
    {
      if LeaseOwned(s, x) {
        OwnersWhenMoved(s, s', id, st, x);
      }
      if EntryOwned(s, x) {
        EntryOwnersWhenMoved(s, s', id, st, x);
      }
      if Unsettled(s, x) {
        UnsettledWhenMoved(s, s', id, st, x);
      }
    }
    FreeingRefl(s.db.leases);
    LeasesFrame(s, s');
    EntriesFrame(s, s');
  }

  /** The entry gets the report; no other start looks at either. */
  lemma BoundShape(s: System, id: Id)
    requires StartsShape(s) && StartAt(s, id, Added) && s.starts[id].entry.Some? && s.starts[id].entry.value in s.db.queue
    ensures DoBind(s, id).db == BoundEntry(s.db, s.starts[id].entry.value, s.starts[id].reportId)
    ensures DoBind(s, id).starts == s.starts[id := s.starts[id].(pc := Bound)]
    ensures StartsShape(DoBind(s, id))
  {
    var st, q := s.starts[id], s.starts[id].entry.value;
    assert StartOk(st, s.db.queue, s.db.reports.Keys);
    var s' := DoBind(s, id);
    StartReplaced(s.starts, id, s'.starts[id]);
    hide OwnReports;
    forall x | x in s'.starts
      ensures StartOk(s'.starts[x], s'.db.queue, s'.db.reports.Keys)
    {
      assert StartOk(s.starts[x], s.db.queue, s.db.reports.Keys);
      if x != id {
        OtherReport(s.starts, id, x);
        if s.starts[x].entry.Some? && !s.starts[x].pc.Over? {
          OtherEntry(s.starts, id, x);
        }
      }
    }
  }

  lemma OtherReport(starts: map<Id, Start>, id: Id, x: Id)
    requires OwnReports(starts) && id in starts && x in starts && x != id && starts[id].reportId != 0
    ensures starts[x].reportId != starts[id].reportId
  {}

  lemma BoundRuns(db: Db, q: Id, report: Id)
    requires q in db.queue && db.queue[q].reportId == 0
    ensures forall r | RunsFor(BoundEntry(db, q, report).queue, r) :: RunsFor(db.queue, r) || r == report
  {}

  lemma BindKeeps(s: System, id: Id)
    requires Inv(s) && StartAt(s, id, Added)
    requires s.starts[id].entry.Some? ==> s.starts[id].entry.value in s.db.queue
    ensures Inv(DoBind(s, id))
  {
    hide StartsShape, QueueShape, OneLeasePerNode, LeaseOwned, EntryOwned, Unsettled, RunsFor, Leasing, Freeing,
         EntriesOwned, Compatible;
    StartIsOk(s, id);
    if s.starts[id].entry.None? {
      var s' := DoBind(s, id);
      CompatibleRefl(s.db.queue);
      StartMoveKeeps(s, s', id, s'.starts[id]);
    } else {
      BindEntryKeeps(s, id);
    }
  }

  lemma BindEntryKeeps(s: System, id: Id)
    requires Inv(s) && StartAt(s, id, Added) && s.starts[id].entry.Some? && s.starts[id].entry.value in s.db.queue
    ensures Inv(DoBind(s, id))
  {
    hide StartsShape, QueueShape, OneLeasePerNode, LeaseOwned, EntryOwned, Unsettled, RunsFor, Leasing, Freeing, Unused;
    var st, q := s.starts[id], s.starts[id].entry.value;
    StartIsOk(s, id);
    var s' := DoBind(s, id);
    BoundShape(s, id);
    BindKeepsShape(s.db, q, st.reportId);
    BoundRuns(s.db, q, st.reportId);
    forall x
      ensures LeaseOwned(s, x) ==> LeaseOwned(s', x)
      ensures EntryExplained(s, x) ==> EntryExplained(s', x)
    {
      if LeaseOwned(s, x) {
        OwnersWhenMoved(s, s', id, s'.starts[id], x);
      }
      if EntryOwned(s, x) {
        EntryOwnersWhenMoved(s, s', id, s'.starts[id], x);
      }
      if Unsettled(s, x) {
        UnsettledWhenMoved(s, s', id, s'.starts[id], x);
      }
    }
    BoundIsUnsettled(s', id);
    FreeingRefl(s.db.leases);
    LeasesFrame(s, s');
    EntriesFrame(s, s');
  }

  lemma BoundIsUnsettled(s: System, id: Id)
    requires StartAt(s, id, Bound)
    ensures Unsettled(s, s.starts[id].reportId) && EntryOwned(s, s.starts[id].reportId)
  {}
}
