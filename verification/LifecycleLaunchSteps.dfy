/** Leasing, launching and giving a start up keep the invariant. */
module LifecycleLaunchSteps {
  import opened Options
  import opened Sets
  import opened ExecutionTables
  import opened CommitFacts
  import opened Lifecycle
  import opened LifecycleInvariant
  import opened LifecycleFrames
  import opened LifecycleSteps

  // ----- leasing ----------------------------------------------------------------------------------

  lemma FreeNode(db: Db, grants: map<Id, Id>, a: Id, b: Id)
    requires grants.Values !! LeasedNodes(db) && a in grants && b in db.leases && db.leases[b].status.Leased?
    ensures grants[a] != db.leases[b].nodeId
  {
    assert grants[a] in grants.Values && db.leases[b].nodeId in LeasedNodes(db);
  }

  lemma GrantedNodes(db: Db, report: Id, grants: map<Id, Id>)
    requires OneLeasePerNode(db.leases) && grants.Keys !! db.leases.Keys && grants.Values !! LeasedNodes(db)
    requires forall a, b | a in grants && b in grants && grants[a] == grants[b] :: a == b
    ensures OneLeasePerNode(Granted(db, report, grants).leases)
  {
    var leases' := Granted(db, report, grants).leases;
    forall a, b | a in leases' && b in leases' && leases'[a].status.Leased? && leases'[b].status.Leased?
      && leases'[a].nodeId == leases'[b].nodeId
      ensures a == b
    {
      if a in grants && b !in grants {
        FreeNode(db, grants, a, b);
      } else if b in grants && a !in grants {
        FreeNode(db, grants, b, a);
      }
    }
  }

  lemma GrantedLeasing(db: Db, report: Id, grants: map<Id, Id>)
    requires grants.Keys !! db.leases.Keys
    ensures forall r | Leasing(Granted(db, report, grants).leases, r) ::
      Leasing(db.leases, r) || (r == report && grants != map[])
  {
    var leases' := Granted(db, report, grants).leases;
    forall r | Leasing(leases', r)
      ensures Leasing(db.leases, r) || (r == report && grants != map[])
    {
      var l :| l in leases' && leases'[l].reportId == r && leases'[l].status.Leased?;
      if l in grants {
        assert grants != map[];
      } else {
        assert l in db.leases && db.leases[l] == leases'[l];
      }
    }
  }

  lemma LeaseKeeps(s: System, id: Id, grants: map<Id, Id>)
    requires Inv(s) && StartAt(s, id, Bound) && grants.Keys !! s.db.leases.Keys
    requires grants.Values == s.starts[id].nodes
    requires forall a, b | a in grants && b in grants && grants[a] == grants[b] :: a == b
    ensures Inv(DoLeaseNodes(s, id, grants))
  {
    hide StartsShape, QueueShape, OneLeasePerNode, LeasesOwned, EntriesOwned, Compatible, LeasedNodes, Unused;
    StartIsOk(s, id);
    CompatibleRefl(s.db.queue);
    if grants.Values !! LeasedNodes(s.db) {
      GrantedKeeps(s, id, grants);
    } else {
      var s' := DoLeaseNodes(s, id, grants);
      StartMoveKeeps(s, s', id, s'.starts[id]);
    }
  }

  lemma EmptyGrants(grants: map<Id, Id>)
    requires grants.Values == {}
    ensures grants == map[]
  {
    if grants.Keys != {} {
      var l := Member(grants.Keys);
      GrantedValue(grants, l);
    }
  }

  lemma GrantedValue(grants: map<Id, Id>, l: Id)
    requires l in grants
    ensures grants[l] in grants.Values
  {}

  lemma GrantedKeeps(s: System, id: Id, grants: map<Id, Id>)
    requires Inv(s) && StartAt(s, id, Bound) && grants.Keys !! s.db.leases.Keys
    requires grants.Values == s.starts[id].nodes && grants.Values !! LeasedNodes(s.db)
    requires forall a, b | a in grants && b in grants && grants[a] == grants[b] :: a == b
    ensures Inv(DoLeaseNodes(s, id, grants))
  {
    hide QueueShape, OneLeasePerNode, LeaseOwned, EntryOwned, Unsettled, RunsFor, Leasing, Compatible, LeasedNodes,
         Unused, Granted, AllOk, OneDispatch;
    var st, s' := s.starts[id], DoLeaseNodes(s, id, grants);
    var r := st.reportId;
    StartIsOk(s, id);
    GrantedOnlyLeases(s.db, r, grants);
    GrantedNodes(s.db, r, grants);
    GrantedLeasing(s.db, r, grants);
    CompatibleRefl(s.db.queue);
    QueueShapeSame(s.db, s'.db);
    StartsStep(s, s', id, s'.starts[id]);
    forall x
      ensures LeaseOwned(s, x) ==> LeaseOwned(s', x)
      ensures EntryExplained(s, x) ==> EntryExplained(s', x)
    {
      if LeaseOwned(s, x) {
        OwnersWhenMoved(s, s', id, s'.starts[id], x);
      }
      if EntryOwned(s, x) {
        EntryOwnersWhenMoved(s, s', id, s'.starts[id], x);
      }
      if Unsettled(s, x) {
        UnsettledWhenMoved(s, s', id, s'.starts[id], x);
      }
    }
    EntriesFrame(s, s');
    ReadyOwns(s', id);
    if st.debug {
      EmptyGrants(grants);
    }
    forall x | x in s'.starts && HasNoLease(s'.starts[x])
      ensures !Leasing(s'.db.leases, s'.starts[x].reportId)
    {
      if x != id {
        OtherReport(s.starts, id, x);
      }
    }
  }

  lemma GrantedOnlyLeases(db: Db, report: Id, grants: map<Id, Id>)
    ensures Granted(db, report, grants) == db.(leases := Granted(db, report, grants).leases)
  {}

  lemma ReadyOwns(s: System, id: Id)
    requires StartAt(s, id, Ready)
    ensures LeaseOwned(s, s.starts[id].reportId)
  {}

  // ----- launching --------------------------------------------------------------------------------

  lemma LaunchKeeps(s: System, id: Id)
    requires Inv(s) && StartAt(s, id, Ready)
    ensures Inv(DoLaunch(s, id))
  {
    hide QueueShape, OneLeasePerNode, LeaseOwned, EntryOwned, Unsettled, RunsFor, Leasing, Freeing, Compatible, StartsShape,
         Unused, EntriesOwned, LeasesOwned;
    StartIsOk(s, id);
    var s' := DoLaunch(s, id);
    QueueShapeSame(s.db, s'.db);
    CompatibleRefl(s.db.queue);
    FreeingRefl(s.db.leases);
    forall x
      ensures LeaseOwned(s, x) ==> LeaseOwned(s', x)
      ensures EntryExplained(s, x) ==> EntryExplained(s', x)
    {
      if LeaseOwned(s, x) {
        OwnersWhenMoved(s, s', id, s'.starts[id], x);
      }
      if EntryOwned(s, x) {
        EntryOwnersWhenMoved(s, s', id, s'.starts[id], x);
      }
      if Unsettled(s, x) {
        UnsettledWhenMoved(s, s', id, s'.starts[id], x);
      }
    }
    StartStep(s, s', id, s'.starts[id]);
  }

  /** The entries of the report end together with it, or nothing changes. */
  ghost predicate EndsReport(a: Db, b: Db, r: Id) {
    && Closing(a.queue, b.queue) && OthersKept(a.queue, b.queue, r) && OnlyReport(a.reports, b.reports, r)
    && ((b.queue == a.queue && b.reports == a.reports) || !RunsFor(b.queue, r))
  }

  lemma ExplainedElsewhere(s: System, s': System, r: Id, x: Id)
    requires x != r && OnlyReport(s.db.reports, s'.db.reports, r) && EntryExplained(s, x)
    requires EntryOwned(s, x) ==> EntryOwned(s', x)
    requires Unsettled(s, x) ==> Unsettled(s', x)
    ensures EntryExplained(s', x)
  {}

  lemma MovedOwners(s: System, s': System, id: Id, st: Start, x: Id)
    requires id in s.starts && s'.starts == s.starts[id := st] && s'.runners == s.runners
    requires s.starts[id].reportId != x
    ensures LeaseOwned(s, x) ==> LeaseOwned(s', x)
    ensures EntryOwned(s, x) ==> EntryOwned(s', x)
    ensures Unsettled(s, x) ==> Unsettled(s', x)
  {
    if LeaseOwned(s, x) {
      OwnersWhenMoved(s, s', id, st, x);
    }
    if EntryOwned(s, x) {
      EntryOwnersWhenMoved(s, s', id, st, x);
    }
    if Unsettled(s, x) {
      UnsettledWhenMoved(s, s', id, st, x);
    }
  }

  /** A start gives its report up: its entries end with it and its leases keep an owner. */
  lemma StartEndsReport(s: System, s': System, id: Id, st: Start)
    requires Inv(s) && id in s.starts && s'.starts == s.starts[id := st] && s'.runners == s.runners
    requires st == s.starts[id].(pc := st.pc) && !s.starts[id].pc.Over? && st.reportId != 0
    requires EndsReport(s.db, s'.db, st.reportId) && Freeing(s.db.leases, s'.db.leases)
    requires StartOk(st, s'.db.queue, s'.db.reports.Keys)
    requires !Leasing(s'.db.leases, st.reportId) || (LeaseOwned(s', st.reportId) && !HasNoLease(st))
    requires RunsFor(s'.db.queue, st.reportId) && EntryExplained(s, st.reportId) ==> EntryExplained(s', st.reportId)
    ensures Inv(s')
  {
    hide StartsShape, QueueShape, OneLeasePerNode, LeaseOwned, EntryOwned, Unsettled, RunsFor, Leasing, Freeing, Closing,
         OthersKept, LeasesOwned, EntriesOwned, EntryExplained, StartOk, Compatible, OnlyReport;
    var r := st.reportId;
    StartIsOk(s, id);
    OnlyReportKeys(s.db.reports, s'.db.reports, r);
    ClosingKeepsShape(s.db, s'.db);
    ClosingIsCompatible(s.db.queue, s'.db.queue, r);
    forall x | x != r
      ensures LeaseOwned(s, x) ==> LeaseOwned(s', x)
      ensures EntryExplained(s, x) ==> EntryExplained(s', x)
    {
      MovedOwners(s, s', id, st, x);
      if EntryExplained(s, x) {
        ExplainedElsewhere(s, s', r, x);
      }
    }
    forall x | RunsFor(s'.db.queue, x)
      ensures RunsFor(s.db.queue, x)
    {
      ClosingRuns(s.db.queue, s'.db.queue, x);
    }
    StartStep(s, s', id, st);
  }

  lemma OnlyReportKeys(a: map<Id, Report>, b: map<Id, Report>, r: Id)
    requires OnlyReport(a, b, r)
    ensures a.Keys == b.Keys
  {}

  lemma StartOkMoved(st: Start, pc: StartPc, a: map<Id, Entry>, b: map<Id, Entry>, reports: set<Id>)
    requires StartOk(st, a, reports) && Compatible(a, b) && st.reportId != 0
    requires AfterBind(st.pc) && (AfterBind(pc) || pc.Over?)
    ensures StartOk(st.(pc := pc), b, reports)
  {
    hide Unused;
    StartOkFrame(st, a, b, reports, reports);
  }

  lemma RefuseLaunchKeeps(s: System, id: Id)
    requires Inv(s) && StartAt(s, id, Ready)
    ensures Inv(DoRefuseLaunch(s, id))
  {
    hide StartsShape, QueueShape, OneLeasePerNode, RunsFor, Leasing, Freeing, Closing, OthersKept, LeasesOwned,
         EntriesOwned, StartOk, Compatible, OnlyReport, CalledBackWith, EntryOwned, LeaseOwned, EntryExplained;
    var st, s' := s.starts[id], DoRefuseLaunch(s, id);
    var r := st.reportId;
    StartIsOk(s, id);
    ReportNonZero(s, id);
    CalledBackFacts(s.db, st.testcase, r, RunFailed);
    OnlyReportKeys(s.db.reports, s'.db.reports, r);
    ClosingIsCompatible(s.db.queue, s'.db.queue, r);
    StartOkMoved(st, s'.starts[id].pc, s.db.queue, s'.db.queue, s.db.reports.Keys);
    ClosedByCallback(s.db, st.testcase, r, RunFailed);
    FreeingRefl(s.db.leases);
    if !st.debug {
      RefusedOwns(s', id);
    }
    if !s.db.reports[r].status.RunIng? {
      NotRunningIsExplained(s, s', id);
    }
    StartEndsReport(s, s', id, s'.starts[id]);
  }

  lemma RefusedOwns(s: System, id: Id)
    requires id in s.starts && OwesRelease(s.starts[id].pc)
    ensures LeaseOwned(s, s.starts[id].reportId)
  {}

  lemma ReportNonZero(s: System, id: Id)
    requires Inv(s) && id in s.starts && AfterBind(s.starts[id].pc)
    ensures s.starts[id].reportId != 0 && s.starts[id].reportId in s.db.reports
    ensures s.starts[id].entry.None? ==> !RunsFor(s.db.queue, s.starts[id].reportId)
  {
    StartIsOk(s, id);
    if s.starts[id].entry.None? {
      UnusedDoesNotRun(s.db.queue, s.starts[id].reportId);
    }
  }

  lemma ClosedByCallback(db: Db, testcase: Id, r: Id, final: CaseStatus)
    requires IsFinal(final) && r in db.reports
    ensures db.reports[r].status.RunIng? ==> !RunsFor(CalledBackWith(db, testcase, r, final).queue, r)
  {
    hide CalledBackWith;
    CalledBackFacts(db, testcase, r, final);
  }

  /** A refused queued start still has to settle an entry it did not close. */
  lemma NotRunningIsExplained(s: System, s': System, id: Id)
    requires Inv(s) && StartAt(s, id, Ready) && !s.db.reports[s.starts[id].reportId].status.RunIng?
    requires s'.starts == s.starts[id := s.starts[id].(pc := if s.starts[id].debug then Over else LaunchRefused)]
    requires s'.db.queue == s.db.queue && s'.db.reports == s.db.reports
    ensures RunsFor(s'.db.queue, s.starts[id].reportId) && EntryExplained(s, s.starts[id].reportId) ==>
      EntryExplained(s', s.starts[id].reportId)
  {
    hide StartsShape, QueueShape, LeasesOwned, EntriesOwned, RunsFor, EntryOwned;
    var st := s.starts[id];
    ReportNonZero(s, id);
    if st.debug {
      DebugHasNoEntry(s, id);
    } else {
      assert id in s'.starts && s'.starts[id].reportId == st.reportId && WillSettle(s'.starts[id].pc);
    }
  }

  lemma DebugHasNoEntry(s: System, id: Id)
    requires Inv(s) && id in s.starts && s.starts[id].debug
    ensures s.starts[id].entry.None?
  {
    StartIsOk(s, id);
  }

  lemma MarkStartFailedKeeps(s: System, id: Id)
    requires Inv(s) && (StartAt(s, id, LeaseRefused) || StartAt(s, id, LaunchRefused))
    ensures Inv(DoMarkStartFailed(s, id))
  {
    hide StartsShape, QueueShape, OneLeasePerNode, RunsFor, Leasing, Freeing, Closing, OthersKept, LeasesOwned,
         EntriesOwned, StartOk, Compatible, OnlyReport, StartFailed, EntryOwned, LeaseOwned, EntryExplained, NoneRunningFor;
    var st, s' := s.starts[id], DoMarkStartFailed(s, id);
    var r := st.reportId;
    StartIsOk(s, id);
    ReportNonZero(s, id);
    StartFailedFacts(s.db, st.testcase, r, st.entry.Some?);
    OnlyReportKeys(s.db.reports, s'.db.reports, r);
    ClosingIsCompatible(s.db.queue, s'.db.queue, r);
    StartOkMoved(st, s'.starts[id].pc, s.db.queue, s'.db.queue, s.db.reports.Keys);
    FreeingRefl(s.db.leases);
    if st.entry.Some? {
      NoneRunningRuns(s'.db.queue, r);
    }
    if st.pc.LaunchRefused? {
      RefusedOwns(s', id);
    }
    StartEndsReport(s, s', id, s'.starts[id]);
  }

  lemma NoneRunningRuns(queue: map<Id, Entry>, r: Id)
    requires NoneRunningFor(queue, r)
    ensures !RunsFor(queue, r)
  {}

  lemma ReleaseAfterRefusalKeeps(s: System, id: Id)
    requires Inv(s) && StartAt(s, id, FailureMarked)
    ensures Inv(DoReleaseAfterRefusal(s, id))
  {
    hide StartsShape, QueueShape, OneLeasePerNode, RunsFor, Leasing, Freeing, Closing, OthersKept, LeasesOwned,
         EntriesOwned, StartOk, Compatible, OnlyReport, ReleasedBy, EntryOwned, LeaseOwned, Unsettled;
    var st, s' := s.starts[id], DoReleaseAfterRefusal(s, id);
    var r := st.reportId;
    StartIsOk(s, id);
    ReportNonZero(s, id);
    ReleasedFacts(s.db, r);
    ReleasedHasNone(s'.db.leases, r);
    ClosingRefl(s.db.queue);
    CompatibleRefl(s.db.queue);
    OnlyReportRefl(s.db.reports, r);
    StartOkMoved(st, Over, s.db.queue, s'.db.queue, s.db.reports.Keys);
    if EntryOwned(s, r) {
      EntryOwnersWhenMoved(s, s', id, s'.starts[id], r);
    }
    if Unsettled(s, r) {
      UnsettledWhenMoved(s, s', id, s'.starts[id], r);
    }
    StartEndsReport(s, s', id, s'.starts[id]);
  }

  lemma OnlyReportRefl(reports: map<Id, Report>, r: Id)
    ensures OnlyReport(reports, reports, r)
  {}

  lemma SettledFacts(s: System, id: Id)
    requires Inv(s) && StartAt(s, id, Launched)
    ensures
      var s', r := Settled(s, id), s.starts[id].reportId;
      && s'.starts == s.starts[id := s.starts[id].(pc := Over)] && s'.runners == s.runners
      && s'.db == s.db.(queue := s'.db.queue)
      && Closing(s.db.queue, s'.db.queue) && OthersKept(s.db.queue, s'.db.queue, r)
      && (s'.db.queue == s.db.queue || !RunsFor(s'.db.queue, r))
      && (RunsFor(s'.db.queue, r) ==> r in s.db.reports && s.db.reports[r].status.RunIng?)
  {
    hide StartsShape, LeasesOwned, EntriesOwned, Unused, OnePending, UnboundBeforeRun;
    StartIsOk(s, id);
    ReportNonZero(s, id);
  }

  lemma SettleKeeps(s: System, id: Id)
    requires Inv(s) && StartAt(s, id, Launched)
    ensures Inv(Settled(s, id))
  {
    hide StartsShape, QueueShape, OneLeasePerNode, RunsFor, Leasing, Freeing, Closing, OthersKept, EntriesOwned, StartOk,
         Compatible, OnlyReport, Settled, EntryOwned, LeaseOwned, Unsettled;
    var st, s' := s.starts[id], Settled(s, id);
    var r := st.reportId;
    StartIsOk(s, id);
    ReportNonZero(s, id);
    SettledFacts(s, id);
    ClosingIsCompatible(s.db.queue, s'.db.queue, r);
    OnlyReportRefl(s.db.reports, r);
    FreeingRefl(s.db.leases);
    StartOkMoved(st, Over, s.db.queue, s'.db.queue, s.db.reports.Keys);
    if EntryOwned(s, r) {
      EntryOwnersWhenMoved(s, s', id, s'.starts[id], r);
    }
    if LeaseOwned(s, r) {
      OwnersWhenMoved(s, s', id, s'.starts[id], r);
    }
    StartEndsReport(s, s', id, s'.starts[id]);
  }
}
