/** How each part of the invariant survives the changes a commit makes. */
module LifecycleFrames {
  import opened Options
  import opened ExecutionTables
  import opened CommitFacts
  import opened Lifecycle
  import opened LifecycleInvariant

  // ----- the queue ---------------------------------------------------------------------------

  lemma ClosingKeepsShape(a: Db, b: Db)
    requires QueueShape(a) && Closing(a.queue, b.queue) && a.reports.Keys == b.reports.Keys
    ensures QueueShape(b)
  {
    assert OnePending(b.queue);
    assert BoundOnce(b.queue, b.reports.Keys);
  }

  lemma EnqueueKeepsShape(db: Db, q: Id, testcase: Id, region: string)
    requires QueueShape(db) && q !in db.queue && !HasActiveEntry(db, testcase, region)
    ensures QueueShape(Enqueued(db, q, testcase, region))
  {}

  lemma MovesKeepShape(db: Db, q: Id)
    requires QueueShape(db) && q in db.queue
    ensures db.queue[q].status.QPending? ==> QueueShape(Cancelled(db, q))
    ensures QueueShape(ClaimedEntry(db, q))
  {
    var c, r := Cancelled(db, q).queue, ClaimedEntry(db, q).queue;
    assert OnePending(c);
    assert OnePending(r);
    assert BoundOnce(c, db.reports.Keys);
    assert BoundOnce(r, db.reports.Keys);
  }

  lemma BindKeepsShape(db: Db, q: Id, report: Id)
    requires QueueShape(db) && q in db.queue && db.queue[q].status.QRunning? && report in db.reports
    requires Unused(db.queue, report)
    ensures QueueShape(BoundEntry(db, q, report))
  {}

  // ----- starts ------------------------------------------------------------------------------

  /** Entries keep their report, held entries are not touched, new ones are unbound. */
  ghost predicate Compatible(a: map<Id, Entry>, b: map<Id, Entry>) {
    && a.Keys <= b.Keys
    && (forall q | q in a :: b[q].reportId == a[q].reportId &&
          (a[q].status.QRunning? && a[q].reportId == 0 ==> b[q] == a[q]))
    && (forall q | q in b && q !in a :: b[q].reportId == 0)
  }

  lemma CompatibleRefl(queue: map<Id, Entry>)
    ensures Compatible(queue, queue)
  {}

  lemma ClosingIsCompatible(a: map<Id, Entry>, b: map<Id, Entry>, report: Id)
    requires Closing(a, b) && OthersKept(a, b, report) && report != 0
    ensures Compatible(a, b)
  {}

  lemma MovesAreCompatible(db: Db, q: Id, testcase: Id, region: string)
    ensures q !in db.queue ==> Compatible(db.queue, Enqueued(db, q, testcase, region).queue)
    ensures q in db.queue && db.queue[q].status.QPending? ==> Compatible(db.queue, Cancelled(db, q).queue)
    ensures q in db.queue ==> Compatible(db.queue, ClaimedEntry(db, q).queue)
  {}

  lemma StartOkFrame(st: Start, a: map<Id, Entry>, b: map<Id, Entry>, reports: set<Id>, more: set<Id>)
    requires StartOk(st, a, reports) && Compatible(a, b) && reports <= more
    ensures StartOk(st, b, more)
  {}

  lemma AllOkFrame(starts: map<Id, Start>, a: map<Id, Entry>, b: map<Id, Entry>, reports: set<Id>, more: set<Id>)
    requires AllOk(starts, a, reports) && Compatible(a, b) && reports <= more
    ensures AllOk(starts, b, more)
  {
    hide StartOk, Compatible;
    forall id | id in starts
      ensures StartOk(starts[id], b, more)
    {
      StartOkFrame(starts[id], a, b, reports, more);
    }
  }

  /** The starts are the same and see the same. */
  lemma StartsFrame(s: System, s': System)
    requires StartsShape(s) && s'.starts == s.starts && s'.runners.Keys == s.runners.Keys
    requires Compatible(s.db.queue, s'.db.queue) && s'.db.reports.Keys == s.db.reports.Keys
    ensures StartsShape(s')
  {
    hide StartOk, Compatible, OwnReports, OneDispatch, AllOk;
    AllOkFrame(s.starts, s.db.queue, s'.db.queue, s.db.reports.Keys, s'.db.reports.Keys);
  }

  lemma StartReplaced(starts: map<Id, Start>, id: Id, st: Start)
    requires id in starts && OwnReports(starts) && OneDispatch(starts)
    requires st.entry == starts[id].entry && (starts[id].pc.Over? ==> st.pc.Over?)
    requires st.reportId == starts[id].reportId || Fresh(starts, st.reportId)
    ensures OwnReports(starts[id := st]) && OneDispatch(starts[id := st])
  {}

  ghost predicate Fresh(starts: map<Id, Start>, report: Id) {
    forall x | x in starts :: starts[x].reportId != report
  }

  /** One start moved, the tables it and the others read being compatible. */
  lemma StartsStep(s: System, s': System, id: Id, st: Start)
    requires StartsShape(s) && id in s.starts && s'.starts == s.starts[id := st]
    requires st.entry == s.starts[id].entry && (s.starts[id].pc.Over? ==> st.pc.Over?)
    requires st.reportId == s.starts[id].reportId || Fresh(s.starts, st.reportId)
    requires Compatible(s.db.queue, s'.db.queue) && s.db.reports.Keys <= s'.db.reports.Keys
    requires StartOk(st, s'.db.queue, s'.db.reports.Keys)
    requires s'.runners.Keys <= s'.db.reports.Keys
    ensures StartsShape(s')
  {
    hide StartOk, Compatible, OwnReports, OneDispatch, Fresh;
    AllOkFrame(s.starts, s.db.queue, s'.db.queue, s.db.reports.Keys, s'.db.reports.Keys);
    StartReplaced(s.starts, id, st);
  }

  // ----- leases ------------------------------------------------------------------------------

  lemma QueueShapeSame(a: Db, b: Db)
    requires QueueShape(a) && b.queue == a.queue && b.reports.Keys == a.reports.Keys
    ensures QueueShape(b)
  {}

  lemma FreeingRefl(leases: map<Id, Lease>)
    ensures Freeing(leases, leases)
  {}

  lemma FreeingKeepsNodes(a: map<Id, Lease>, b: map<Id, Lease>)
    requires OneLeasePerNode(a) && Freeing(a, b)
    ensures OneLeasePerNode(b)
  {}

  lemma FreeingLeases(a: map<Id, Lease>, b: map<Id, Lease>, report: Id)
    requires Freeing(a, b) && Leasing(b, report)
    ensures Leasing(a, report)
  {}

  /** No lease is added, and every report that still has one keeps an owner. */
  lemma LeasesFrame(s: System, s': System)
    requires LeasesOwned(s) && Freeing(s.db.leases, s'.db.leases) && s.db.reports.Keys <= s'.db.reports.Keys
    requires forall r | Leasing(s'.db.leases, r) && LeaseOwned(s, r) :: LeaseOwned(s', r)
    requires forall id | id in s'.starts && HasNoLease(s'.starts[id]) ::
      || !Leasing(s'.db.leases, s'.starts[id].reportId)
      || (id in s.starts && HasNoLease(s.starts[id]) && s.starts[id].reportId == s'.starts[id].reportId)
    ensures LeasesOwned(s')
  {
    hide LeaseOwned, HasNoLease;
    forall r | Leasing(s'.db.leases, r)
      ensures LeaseOwned(s', r) && r in s'.db.reports
    {
      FreeingLeases(s.db.leases, s'.db.leases, r);
    }
    forall id | id in s'.starts && HasNoLease(s'.starts[id])
      ensures !Leasing(s'.db.leases, s'.starts[id].reportId)
    {
      if Leasing(s'.db.leases, s'.starts[id].reportId) {
        FreeingLeases(s.db.leases, s'.db.leases, s'.starts[id].reportId);
      }
    }
  }

  /** A start moved; it owes a release afterwards if it did before. */
  lemma OwnersWhenMoved(s: System, s': System, id: Id, st: Start, r: Id)
    requires id in s.starts && s'.starts == s.starts[id := st] && LeaseOwned(s, r)
    requires OwesRelease(s.starts[id].pc) && s.starts[id].reportId == r ==>
      (OwesRelease(st.pc) && st.reportId == r) || (r in s'.runners && !s'.runners[r].pc.Gone?)
    requires forall x | x in s.runners && !s.runners[x].pc.Gone? :: x in s'.runners && !s'.runners[x].pc.Gone?
    ensures LeaseOwned(s', r)
  {
    if x :| x in s.starts && s.starts[x].reportId == r && OwesRelease(s.starts[x].pc) {
      if x != id {
        assert x in s'.starts && s'.starts[x].reportId == r;
      } else if OwesRelease(st.pc) && st.reportId == r {
        assert id in s'.starts;
      }
    }
  }

  // ----- bound entries -------------------------------------------------------------------------

  /** No running entry is gained, and each keeps its explanation. */
  lemma EntriesFrame(s: System, s': System)
    requires EntriesOwned(s)
    requires forall r | RunsFor(s'.db.queue, r) :: RunsFor(s.db.queue, r) || EntryExplained(s', r)
    requires forall r | RunsFor(s'.db.queue, r) && EntryExplained(s, r) :: EntryExplained(s', r)
    ensures EntriesOwned(s')
  {}

  lemma ClosingRuns(a: map<Id, Entry>, b: map<Id, Entry>, report: Id)
    requires Closing(a, b) && RunsFor(b, report)
    ensures RunsFor(a, report)
  {}

  /** A start that moves on without having settled is still to settle. */
  lemma UnsettledWhenMoved(s: System, s': System, id: Id, st: Start, r: Id)
    requires id in s.starts && s'.starts == s.starts[id := st] && Unsettled(s, r)
    requires s.starts[id].reportId == r && WillSettle(s.starts[id].pc) ==> st.reportId == r && WillSettle(st.pc)
    ensures Unsettled(s', r)
  {
    var x :| x in s.starts && s.starts[x].reportId == r && WillSettle(s.starts[x].pc);
    assert x in s'.starts && s'.starts[x].reportId == r && WillSettle(s'.starts[x].pc);
  }

  lemma EntryOwnersWhenMoved(s: System, s': System, id: Id, st: Start, r: Id)
    requires id in s.starts && s'.starts == s.starts[id := st] && EntryOwned(s, r)
    requires forall x | x in s.runners && WillCloseEntry(s.runners[x].pc) :: x in s'.runners && WillCloseEntry(s'.runners[x].pc)
    requires s.starts[id].reportId == r && OwesEntry(s.starts[id].pc) ==>
      || (st.reportId == r && OwesEntry(st.pc))
      || (r in s'.runners && WillCloseEntry(s'.runners[r].pc))
    ensures EntryOwned(s', r)
  {
    if x :| x in s.starts && s.starts[x].reportId == r && OwesEntry(s.starts[x].pc) {
      if x != id {
        assert x in s'.starts && s'.starts[x].reportId == r;
      } else if st.reportId == r {
        assert id in s'.starts && s'.starts[id] == st;
      }
    }
  }

  // ----- whole steps ----------------------------------------------------------------------------

  /** A commit of a runner, a stop or the queue: the starts stay where they are. */
  lemma TablesStep(s: System, s': System)
    requires Inv(s) && QueueShape(s'.db)
    requires s'.starts == s.starts && s'.runners.Keys == s.runners.Keys
    requires Compatible(s.db.queue, s'.db.queue) && s'.db.reports.Keys == s.db.reports.Keys
    requires Freeing(s.db.leases, s'.db.leases)
    requires forall r | Leasing(s'.db.leases, r) && LeaseOwned(s, r) :: LeaseOwned(s', r)
    requires forall r | RunsFor(s'.db.queue, r) :: RunsFor(s.db.queue, r) && (EntryExplained(s, r) ==> EntryExplained(s', r))
    ensures Inv(s')
  {
    hide StartsShape, QueueShape, Compatible, Freeing, Leasing, LeaseOwned, RunsFor, EntryExplained, OneLeasePerNode;
    StartsFrame(s, s');
    FreeingKeepsNodes(s.db.leases, s'.db.leases);
    LeasesFrame(s, s');
    EntriesFrame(s, s');
  }

  /** A commit of one start. */
  lemma StartStep(s: System, s': System, id: Id, st: Start)
    requires Inv(s) && QueueShape(s'.db) && id in s.starts && s'.starts == s.starts[id := st]
    requires st.entry == s.starts[id].entry && st.reportId == s.starts[id].reportId
    requires s.starts[id].pc.Over? ==> st.pc.Over?
    requires Compatible(s.db.queue, s'.db.queue) && s'.db.reports.Keys == s.db.reports.Keys
    requires StartOk(st, s'.db.queue, s'.db.reports.Keys) && s'.runners.Keys <= s'.db.reports.Keys
    requires Freeing(s.db.leases, s'.db.leases)
    requires forall r | Leasing(s'.db.leases, r) && LeaseOwned(s, r) :: LeaseOwned(s', r)
    requires HasNoLease(st) ==> HasNoLease(s.starts[id]) || !Leasing(s'.db.leases, st.reportId)
    requires forall r | RunsFor(s'.db.queue, r) :: RunsFor(s.db.queue, r) && (EntryExplained(s, r) ==> EntryExplained(s', r))
    ensures Inv(s')
  {
    hide StartOk, AllOk, OwnReports, OneDispatch, QueueShape, Compatible, Freeing, Leasing, LeaseOwned, RunsFor, EntryExplained,
         OneLeasePerNode;
    StartsStep(s, s', id, st);
    FreeingKeepsNodes(s.db.leases, s'.db.leases);
    LeasesFrame(s, s');
    EntriesFrame(s, s');
  }
}
