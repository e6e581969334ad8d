/** What every commit of the execution lifecycle keeps. */
module LifecycleInvariant {
  import opened Options
  import opened ExecutionTables
  import opened CommitFacts
  import opened Lifecycle

  // ----- the queue ---------------------------------------------------------------------------

  /** One pending entry per testcase and region. */
  ghost predicate OnePending(queue: map<Id, Entry>) {
    forall p, q | p in queue && q in queue && queue[p].status.QPending? && queue[q].status.QPending?
      && queue[p].testcase == queue[q].testcase && queue[p].region == queue[q].region :: p == q
  }

  /** Entries that wait or were canceled have no report. */
  ghost predicate UnboundBeforeRun(queue: map<Id, Entry>) {
    forall q | q in queue && (queue[q].status.QPending? || queue[q].status.QCanceled?) :: queue[q].reportId == 0
  }

  /** No report is bound twice, and bound reports exist. */
  ghost predicate BoundOnce(queue: map<Id, Entry>, reports: set<Id>) {
    && (forall q | q in queue && queue[q].reportId != 0 :: queue[q].reportId in reports)
    && (forall p, q | p in queue && q in queue && queue[p].reportId != 0 && queue[p].reportId == queue[q].reportId :: p == q)
  }

  ghost predicate QueueShape(db: Db) {
    && 0 !in db.reports
    && OnePending(db.queue) && UnboundBeforeRun(db.queue) && BoundOnce(db.queue, db.reports.Keys)
  }

  // ----- starts ------------------------------------------------------------------------------

  predicate BeforeReport(pc: StartPc) {
    pc.Admitted? || pc.Claimed? || pc.Chosen? || pc.Marked?
  }

  predicate AfterBind(pc: StartPc) {
    pc.Bound? || pc.LeaseRefused? || pc.Ready? || pc.LaunchRefused? || pc.FailureMarked? || pc.Launched?
  }

  /** A start that has checked its entry and not yet claimed it. */
  predicate Checked(st: Start) { st.entry.Some? && st.pc.Admitted? }

  /** A start between its claim and its bind. */
  predicate Holds(st: Start) {
    st.entry.Some? && (st.pc.Claimed? || st.pc.Chosen? || st.pc.Marked? || st.pc.Added?)
  }

  /** What the tables say about one start. */
  ghost predicate StartOk(st: Start, queue: map<Id, Entry>, reports: set<Id>) {
    && (st.reportId != 0 ==> st.reportId in reports)
    && (BeforeReport(st.pc) ==> st.reportId == 0)
    && (st.pc.Added? || AfterBind(st.pc) ==> st.reportId != 0)
    && (st.entry.Some? ==> st.entry.value in queue)
    && (Checked(st) ==> st.seen.QPending? && queue[st.entry.value].reportId == 0)
    && (Holds(st) ==> queue[st.entry.value].status.QRunning? && queue[st.entry.value].reportId == 0)
    && (st.entry.Some? && AfterBind(st.pc) ==> queue[st.entry.value].reportId == st.reportId)
    && (st.reportId != 0 && (st.pc.Added? || st.entry.None?) ==> Unused(queue, st.reportId))
    && (st.debug ==> st.local && st.entry.None?)
    && (st.local ==> st.nodes == {})
  }

  ghost predicate Unused(queue: map<Id, Entry>, report: Id) {
    forall q | q in queue :: queue[q].reportId != report
  }

  ghost predicate AllOk(starts: map<Id, Start>, queue: map<Id, Entry>, reports: set<Id>) {
    forall id | id in starts :: StartOk(starts[id], queue, reports)
  }

  ghost predicate OwnReports(starts: map<Id, Start>) {
    forall a, b | a in starts && b in starts && starts[a].reportId != 0 && starts[a].reportId == starts[b].reportId :: a == b
  }

  ghost predicate OneDispatch(starts: map<Id, Start>) {
    forall a, b | a in starts && b in starts && starts[a].entry.Some? && starts[b].entry.Some?
      && !starts[a].pc.Over? && !starts[b].pc.Over? :: a == b
  }

  ghost predicate StartsShape(s: System) {
    && AllOk(s.starts, s.db.queue, s.db.reports.Keys) && OwnReports(s.starts) && OneDispatch(s.starts)
    && s.runners.Keys <= s.db.reports.Keys
  }

  // ----- leases ------------------------------------------------------------------------------

  ghost predicate OneLeasePerNode(leases: map<Id, Lease>) {
    forall a, b | a in leases && b in leases && leases[a].status.Leased? && leases[b].status.Leased?
      && leases[a].nodeId == leases[b].nodeId :: a == b
  }

  /** Some lease of the report is active. */
  ghost predicate Leasing(leases: map<Id, Lease>, report: Id) {
    exists l :: l in leases && leases[l].reportId == report && leases[l].status.Leased?
  }

  predicate OwesRelease(pc: StartPc) { pc.Ready? || pc.LaunchRefused? || pc.FailureMarked? }

  /** Some process still has to release the leases of this report: its start between lease and
      launch, or its runner. */
  ghost predicate LeaseOwned(s: System, report: Id) {
    || (exists id :: id in s.starts && s.starts[id].reportId == report && OwesRelease(s.starts[id].pc))
    || (report in s.runners && !s.runners[report].pc.Gone?)
  }

  /** Starts that have not leased yet, or never do. */
  predicate HasNoLease(st: Start) {
    st.reportId != 0 && (st.pc.Added? || st.pc.Bound? || st.pc.LeaseRefused? || st.debug)
  }

  ghost predicate LeasesOwned(s: System) {
    && (forall r | Leasing(s.db.leases, r) :: LeaseOwned(s, r) && r in s.db.reports)
    && (forall id | id in s.starts && HasNoLease(s.starts[id]) :: !Leasing(s.db.leases, s.starts[id].reportId))
  }

  // ----- bound entries -------------------------------------------------------------------------

  /** Some entry bound to the report is still running. */
  ghost predicate RunsFor(queue: map<Id, Entry>, report: Id) {
    report != 0 && exists q :: q in queue && queue[q].reportId == report && queue[q].status.QRunning?
  }

  predicate WillCloseEntry(pc: RunnerPc) { pc.Spawned? || pc.Alive? || pc.Exited? || pc.Crashed? }

  /** A start whose failure still closes the entry. */
  predicate OwesEntry(pc: StartPc) { pc.Bound? || pc.LeaseRefused? || pc.Ready? }

  ghost predicate EntryOwned(s: System, report: Id) {
    || (exists id :: id in s.starts && s.starts[id].reportId == report && OwesEntry(s.starts[id].pc))
    || (report in s.runners && WillCloseEntry(s.runners[report].pc))
  }

  /** A start past its bind that will still look at its report or close its entry. */
  predicate WillSettle(pc: StartPc) {
    pc.Bound? || pc.LeaseRefused? || pc.Ready? || pc.LaunchRefused? || pc.Launched?
  }

  ghost predicate Unsettled(s: System, report: Id) {
    exists id :: id in s.starts && s.starts[id].reportId == report && WillSettle(s.starts[id].pc)
  }

  /** A report that still runs has a process that will close its entry; one that does not was
      ended by the timeout scan, or its start has yet to look. */
  ghost predicate EntryExplained(s: System, report: Id) {
    && report in s.db.reports
    && (if s.db.reports[report].status.RunIng? then EntryOwned(s, report)
        else (s.db.reports[report].status.RunFailed? && s.db.reports[report].reason.TimedOut?) || Unsettled(s, report))
  }

  ghost predicate EntriesOwned(s: System) {
    forall r | RunsFor(s.db.queue, r) :: EntryExplained(s, r)
  }

  ghost predicate Inv(s: System) {
    && QueueShape(s.db) && StartsShape(s) && OneLeasePerNode(s.db.leases) && LeasesOwned(s) && EntriesOwned(s)
  }

  lemma InitInv(s: System)
    requires Init(s)
    ensures Inv(s)
  {}
}
