/** Cancels and the claim that does not see them. The claim checks the session's copy of its
    entry, so a cancel committed between the dispatcher's check and the claim is lost: here is
    exactly what such a cancel can undo, and what holds of every run without one. */
module LifecycleCancels {
  import opened Options
  import opened ExecutionTables
  import opened CommitFacts
  import opened Lifecycle
  import opened LifecycleInvariant
  import opened LifecycleSteps
  import opened LifecycleStepProof
  import opened LifecycleEntries
  import opened LifecycleStuck

  // ----- which entries run ------------------------------------------------------------------------------

  /** The claim never refuses: its check repeats, on the same copy, the check made before it. */
  lemma ClaimNeverRefuses(s: System, id: Id)
    requires Inv(s) && Enabled(s, Claim(id))
    ensures StartAt(Apply(s, Claim(id)), id, Claimed)
    ensures EntryIs(Apply(s, Claim(id)), s.starts[id].entry.value, QRunning)
  {
    hide Inv;
    StartIsOk(s, id);
  }

  /** An entry comes to run exactly by the claim of its start, be it still pending or canceled. */
  lemma RunsExactlyByClaim(s: System, e: Event, q: Id)
    requires FullInv(s) && Enabled(s, e)
    ensures !EntryIs(s, q, QRunning) && EntryIs(Apply(s, e), q, QRunning) <==> e.Claim? && Serves(s, e.start, q)
    ensures e.Claim? && Serves(s, e.start, q) ==> Waiting(s, q)
  {
    hide Inv, Apply, Enabled;
    if e.Claim? && Serves(s, e.start, q) {
      ClaimIsChecked(s, e);
      ClaimNeverRefuses(s, e.start);
    } else if !EntryIs(s, q, QRunning) && EntryIs(Apply(s, e), q, QRunning) {
      RunningOnlyByClaim(s, e, q);
    }
  }

  lemma ClaimIsChecked(s: System, e: Event)
    requires Enabled(s, e) && e.Claim?
    ensures e.start in s.starts && Checked(s.starts[e.start]) && s.starts[e.start].entry.value in s.db.queue
  {}

  // ----- canceled entries -------------------------------------------------------------------------------

  lemma CanceledIsUnbound(s: System, q: Id)
    requires Inv(s) && EntryIs(s, q, QCanceled)
    ensures s.db.queue[q].reportId == 0
  {}

  /** Its start claims it on the copy, or the dispatcher meets an unexpected error in its start. */
  predicate Overrides(s: System, e: Event, q: Id) {
    (e.Claim? || (e.Abort? && e.unexpected)) && Serves(s, e.start, q)
  }

  /** A canceled entry stays canceled under every event but those two of its own start: the claim
      makes it running, the error handler failed. */
  lemma CanceledChangesExactlyBy(s: System, e: Event, q: Id)
    requires FullInv(s) && Enabled(s, e) && EntryIs(s, q, QCanceled)
    ensures !EntryIs(Apply(s, e), q, QCanceled) <==> Overrides(s, e, q)
    ensures Overrides(s, e, q) ==> EntryIs(Apply(s, e), q, if e.Claim? then QRunning else QFailed)
  {
    hide Inv, Apply, Enabled, NextEntry;
    EntryStep(s, e, q);
    CanceledNext(s, e, q);
  }

  lemma CanceledNext(s: System, e: Event, q: Id)
    requires Inv(s) && Enabled(s, e) && EntryIs(s, q, QCanceled)
    ensures NextEntry(s, e, q).status ==
      if !Overrides(s, e, q) then QCanceled else if e.Claim? then QRunning else QFailed
  {
    ReportIdsAreReal(s, e);
    CanceledIsUnbound(s, q);
    if e.Claim? {
      ClaimIsChecked(s, e);
      StartIsOk(s, e.start);
    }
    hide Inv, Apply, FinalOf, MayAdmit, MayAbort, MayChoose, HasActiveEntry, HasRunningReport, LeasedNodes;
  }

  /** A live start of a canceled entry is between its check and its claim. */
  lemma CanceledIsServedByChecked(s: System, id: Id, q: Id)
    requires Inv(s) && EntryIs(s, q, QCanceled) && Serves(s, id, q) && !s.starts[id].pc.Over?
    ensures Checked(s.starts[id])
  {
    hide Inv;
    StartIsOk(s, id);
    CanceledIsUnbound(s, q);
  }

  lemma OverriderIsLive(s: System, e: Event, q: Id)
    requires Enabled(s, e) && Overrides(s, e, q)
    ensures !s.starts[e.start].pc.Over?
  {}

  /** A canceled entry can still change exactly as long as its start is between check and claim. */
  lemma CanceledIsFinalIffUnserved(s: System, q: Id)
    requires FullInv(s) && EntryIs(s, q, QCanceled)
    ensures (exists e :: Enabled(s, e) && !EntryIs(Apply(s, e), q, QCanceled)) <==> !Unserved(s, q)
  {
    hide Inv, Apply, Enabled;
    if !Unserved(s, q) {
      var id :| Serves(s, id, q) && !s.starts[id].pc.Over?;
      CanceledIsServedByChecked(s, id, q);
      CheckedMayClaim(s, id);
      CanceledChangesExactlyBy(s, Claim(id), q);
    }
    forall e | Enabled(s, e) && !EntryIs(Apply(s, e), q, QCanceled)
      ensures !Unserved(s, q)
    {
      CanceledChangesExactlyBy(s, e, q);
      OverriderIsLive(s, e, q);
    }
  }

  lemma CheckedMayClaim(s: System, id: Id)
    requires Inv(s) && id in s.starts && Checked(s.starts[id])
    ensures Enabled(s, Claim(id))
  {
    StartIsOk(s, id);
  }

  lemma CanceledStaysStep(s: System, e: Event, q: Id)
    requires FullInv(s) && Enabled(s, e) && EntryIs(s, q, QCanceled) && Unserved(s, q)
    ensures EntryIs(Apply(s, e), q, QCanceled) && Apply(s, e).db.queue[q] == s.db.queue[q] && Unserved(Apply(s, e), q)
  {
    hide Inv, Apply, Enabled, NextEntry;
    CanceledChangesExactlyBy(s, e, q);
    if Overrides(s, e, q) {
      OverriderIsLive(s, e, q);
    }
    EntryStep(s, e, q);
    CanceledIsKept(s, e, q);
    if e.Restart? {
      RestartClears(s);
    } else {
      forall id | Serves(Apply(s, e), id, q)
        ensures Apply(s, e).starts[id].pc.Over?
      {
        ServersAfter(s, e, id, q);
        MoverOfStart(e);
        if Mover(e) == Some(id) {
          StartMoved(s, e);
        }
      }
    }
  }

  lemma CanceledIsKept(s: System, e: Event, q: Id)
    requires Inv(s) && Enabled(s, e) && EntryIs(s, q, QCanceled) && NextEntry(s, e, q).status.QCanceled?
    ensures NextEntry(s, e, q) == s.db.queue[q]
  {
    hide Inv, Apply, FinalOf, MayAdmit, MayAbort, MayChoose, HasActiveEntry, HasRunningReport, LeasedNodes;
  }

  /** In every run, an entry that is canceled while no start is at it stays as it is for good. */
  lemma {:induction false} CanceledStays(states: seq<System>, events: seq<Event>, i: nat, j: nat, q: Id)
    requires IsRun(states, events) && Init(states[0]) && i <= j <= |events|
    requires EntryIs(states[i], q, QCanceled) && Unserved(states[i], q)
    ensures EntryIs(states[j], q, QCanceled) && states[j].db.queue[q] == states[i].db.queue[q] && Unserved(states[j], q)
    decreases j
  {
    hide FullInv, Apply, Enabled, Init, Unserved;
    if i < j {
      CanceledStays(states, events, i, j - 1, q);
      RunFullInv(states, events, j - 1);
      CanceledStaysStep(states[j - 1], events[j - 1], q);
    }
  }

  // ----- ended entries ----------------------------------------------------------------------------------

  predicate Ended(s: System, q: Id) { EntryIs(s, q, QSuccess) || EntryIs(s, q, QFailed) }

  lemma EndedStep(s: System, e: Event, q: Id)
    requires FullInv(s) && Enabled(s, e) && Ended(s, q)
    ensures Ended(Apply(s, e), q)
  {
    hide Inv, Apply, Enabled, NextEntry;
    EntryStep(s, e, q);
    if e.Claim? {
      ClaimIsChecked(s, e);
    }
    EndedNext(s, e, q);
  }

  lemma EndedNext(s: System, e: Event, q: Id)
    requires Enabled(s, e) && Ended(s, q) && !(e.Claim? && Serves(s, e.start, q))
    ensures NextEntry(s, e, q).status.QSuccess? || NextEntry(s, e, q).status.QFailed?
  {
    hide Apply, FinalOf, MayAdmit, MayAbort, MayChoose, HasActiveEntry, HasRunningReport, LeasedNodes;
  }

  /** In every run, an entry that succeeded or failed never comes back. */
  lemma {:induction false} EndedStays(states: seq<System>, events: seq<Event>, i: nat, j: nat, q: Id)
    requires IsRun(states, events) && Init(states[0]) && i <= j <= |events| && Ended(states[i], q)
    ensures Ended(states[j], q)
    decreases j
  {
    hide FullInv, Apply, Enabled, Init;
    if i < j {
      EndedStays(states, events, i, j - 1, q);
      RunFullInv(states, events, j - 1);
      EndedStep(states[j - 1], events[j - 1], q);
    }
  }

  // ----- one active entry -------------------------------------------------------------------------------

  /** One active entry per testcase and region. */
  ghost predicate OneActive(queue: map<Id, Entry>) {
    forall p, q | p in queue && q in queue && IsActive(queue[p].status) && IsActive(queue[q].status)
      && queue[p].testcase == queue[q].testcase && queue[p].region == queue[q].region :: p == q
  }

  predicate ActiveAt(s: System, q: Id) { q in s.db.queue && IsActive(s.db.queue[q].status) }

  predicate Activates(s: System, e: Event, q: Id) {
    (e.Enqueue? && e.entry == q) || (e.Claim? && Serves(s, e.start, q) && EntryIs(s, q, QCanceled))
  }

  /** An entry becomes active exactly when it is queued, or when a claim revives a canceled one. */
  lemma ActivatedExactlyBy(s: System, e: Event, q: Id)
    requires FullInv(s) && Enabled(s, e)
    ensures !ActiveAt(s, q) && ActiveAt(Apply(s, e), q) <==> Activates(s, e, q)
  {
    hide Inv, Apply, Enabled, NextEntry;
    if q in s.db.queue {
      EntryStep(s, e, q);
      EnqueuedIsNew(s, e);
      ActivatedFromTheTable(s, e, q);
    } else {
      if q in Apply(s, e).db.queue {
        NewEntryIsPending(s, e, q);
      }
      if e.Enqueue? && e.entry == q {
        EnqueuedIsNew(s, e);
      }
    }
  }

  lemma EnqueuedIsNew(s: System, e: Event)
    requires Enabled(s, e)
    ensures e.Enqueue? ==>
      && e.entry !in s.db.queue && !HasActiveEntry(s.db, e.testcase, e.region)
      && e.entry in Apply(s, e).db.queue && Apply(s, e).db.queue[e.entry] == Entry(e.testcase, e.region, QPending, 0)
  {
    hide HasActiveEntry;
  }

  lemma ActivatedFromTheTable(s: System, e: Event, q: Id)
    requires FullInv(s) && Enabled(s, e) && q in s.db.queue && !(e.Enqueue? && e.entry == q)
    ensures !IsActive(s.db.queue[q].status) && IsActive(NextEntry(s, e, q).status) <==> Activates(s, e, q)
  {
    if e.Claim? {
      ClaimIsChecked(s, e);
      StartIsOk(s, e.start);
    }
    hide Inv, Apply, FinalOf, MayAdmit, MayAbort, MayChoose, HasActiveEntry, HasRunningReport, LeasedNodes;
  }

  lemma PairIsKept(s: System, e: Event, q: Id)
    requires Enabled(s, e) && q in s.db.queue
    ensures q in Apply(s, e).db.queue
    ensures Apply(s, e).db.queue[q].testcase == s.db.queue[q].testcase && Apply(s, e).db.queue[q].region == s.db.queue[q].region
  {
    EntryStep(s, e, q);
    hide Apply, Enabled, FinalOf, ClosedStatus;
  }

  /** The claim of a canceled entry whose testcase and region have been queued anew. */
  predicate Doubles(s: System, e: Event) {
    && e.Claim? && e.start in s.starts && s.starts[e.start].entry.Some?
    && var q := s.starts[e.start].entry.value;
       EntryIs(s, q, QCanceled) && HasActiveEntry(s.db, s.db.queue[q].testcase, s.db.queue[q].region)
  }

  /** One active entry per testcase and region is kept by every event but that claim. */
  lemma OneActiveBrokenExactlyBy(s: System, e: Event)
    requires FullInv(s) && Enabled(s, e) && OneActive(s.db.queue)
    ensures !OneActive(Apply(s, e).db.queue) <==> Doubles(s, e)
  {
    hide FullInv, Apply, Enabled, HasActiveEntry;
    var s' := Apply(s, e);
    if Doubles(s, e) {
      DoublesIt(s, e);
    } else {
      forall p, q | ActiveAt(s', p) && ActiveAt(s', q)
        && s'.db.queue[p].testcase == s'.db.queue[q].testcase && s'.db.queue[p].region == s'.db.queue[q].region
        ensures p == q
      {
        if ActiveAt(s, p) && ActiveAt(s, q) {
          PairIsKept(s, e, p);
          PairIsKept(s, e, q);
        } else if ActiveAt(s, q) {
          NewcomerIsAlone(s, e, p, q);
        } else if ActiveAt(s, p) {
          NewcomerIsAlone(s, e, q, p);
        } else {
          ActivatedExactlyBy(s, e, p);
          ActivatedExactlyBy(s, e, q);
        }
      }
    }
  }

  /** An entry that becomes active meets no active one of its pair, unless the claim doubles. */
  lemma NewcomerIsAlone(s: System, e: Event, p: Id, q: Id)
    requires FullInv(s) && Enabled(s, e) && !Doubles(s, e)
    requires !ActiveAt(s, p) && ActiveAt(s, q) && ActiveAt(Apply(s, e), p) && q in Apply(s, e).db.queue
    ensures Apply(s, e).db.queue[p].testcase != Apply(s, e).db.queue[q].testcase
         || Apply(s, e).db.queue[p].region != Apply(s, e).db.queue[q].region
  {
    hide FullInv, Apply, Enabled;
    ActivatedExactlyBy(s, e, p);
    PairIsKept(s, e, q);
    if e.Enqueue? {
      EnqueuedIsNew(s, e);
    } else {
      PairIsKept(s, e, p);
    }
  }

  lemma DoublesIt(s: System, e: Event)
    requires FullInv(s) && Enabled(s, e) && Doubles(s, e)
    ensures !OneActive(Apply(s, e).db.queue)
  {
    hide FullInv, Apply, Enabled, NextEntry;
    var p := s.starts[e.start].entry.value;
    var q :| q in s.db.queue && s.db.queue[q].testcase == s.db.queue[p].testcase && s.db.queue[q].region == s.db.queue[p].region
      && IsActive(s.db.queue[q].status);
    ActivatedExactlyBy(s, e, p);
    EntryStep(s, e, q);
    assert NextEntry(s, e, q) == s.db.queue[q] by { OtherClaim(s, e, q); }
    PairIsKept(s, e, p);
  }

  lemma OtherClaim(s: System, e: Event, q: Id)
    requires Enabled(s, e) && e.Claim? && q in s.db.queue && !Serves(s, e.start, q)
    ensures NextEntry(s, e, q) == s.db.queue[q]
  {
    hide Apply;
  }

  // ----- runs without such a cancel ---------------------------------------------------------------------

  /** A cancel of an entry whose start is between its check and its claim. */
  ghost predicate Disturbs(s: System, e: Event) {
    e.Cancel? && exists id :: Serves(s, id, e.entry) && s.starts[id].pc.Admitted?
  }

  /** No cancel among the first n events falls into that gap. */
  ghost predicate Undisturbed(states: seq<System>, events: seq<Event>, n: nat)
    requires n <= |events| < |states|
  {
    forall k | 0 <= k < n :: !Disturbs(states[k], events[k])
  }

  /** Every checked entry is as its start saw it. */
  ghost predicate Prompt(s: System) {
    forall id | id in s.starts && Checked(s.starts[id]) :: EntryIs(s, s.starts[id].entry.value, QPending)
  }

  lemma CanceledOnlyByCancel(s: System, e: Event, q: Id)
    requires Enabled(s, e) && EntryIs(Apply(s, e), q, QCanceled) && !EntryIs(s, q, QCanceled) && q in s.db.queue
    ensures e == Cancel(q)
  {
    EntryStep(s, e, q);
    hide Apply, FinalOf, MayAdmit, MayAbort, MayChoose, HasActiveEntry, HasRunningReport, LeasedNodes;
  }

  lemma CheckedIsDisturbed(s: System, id: Id, q: Id)
    ensures Serves(s, id, q) && s.starts[id].pc.Admitted? ==> Disturbs(s, Cancel(q))
  {}

  lemma PromptStep(s: System, e: Event)
    requires FullInv(s) && Prompt(s) && Enabled(s, e) && !Disturbs(s, e)
    ensures Prompt(Apply(s, e))
  {
    hide Inv, Apply, Enabled;
    var s' := Apply(s, e);
    MoverOfStart(e);
    forall id | id in s'.starts && Checked(s'.starts[id])
      ensures EntryIs(s', s'.starts[id].entry.value, QPending)
    {
      if e.Restart? {
        RestartClears(s);
      } else {
        PromptKept(s, e, id);
      }
    }
  }

  lemma PromptKept(s: System, e: Event, id: Id)
    requires FullInv(s) && Prompt(s) && Enabled(s, e) && !Disturbs(s, e) && !e.Restart?
    requires id in Apply(s, e).starts && Checked(Apply(s, e).starts[id])
    ensures EntryIs(Apply(s, e), Apply(s, e).starts[id].entry.value, QPending)
  {
    hide Inv, Apply, Enabled;
    MoverOfStart(e);
    AdmittedStaysWaiting(s, e, id);
    if e.Admit? {
      StartAdmitted(s, e);
    } else {
      if OfStart(e) {
        StartMoved(s, e);
      } else {
        StartsKept(s, e);
      }
      var q := s.starts[id].entry.value;
      if EntryIs(Apply(s, e), q, QCanceled) {
        CanceledOnlyByCancel(s, e, q);
        CheckedIsDisturbed(s, id, q);
      }
    }
  }

  /** A run without a cancel between check and claim keeps one active entry per testcase and
      region. */
  lemma {:induction false} UndisturbedRun(states: seq<System>, events: seq<Event>, i: nat)
    requires IsRun(states, events) && Init(states[0]) && i <= |events| && Undisturbed(states, events, i)
    ensures Prompt(states[i]) && OneActive(states[i].db.queue)
  {
    hide FullInv, Apply, Enabled, Disturbs;
    if i > 0 {
      var s, e := states[i - 1], events[i - 1];
      hide Prompt, Init, HasActiveEntry;
      UndisturbedRun(states, events, i - 1);
      RunFullInv(states, events, i - 1);
      PromptStep(s, e);
      OneActiveBrokenExactlyBy(s, e);
      PromptDoesNotDouble(s, e);
    }
  }

  lemma PromptDoesNotDouble(s: System, e: Event)
    requires Prompt(s) && Enabled(s, e)
    ensures !Doubles(s, e)
  {
    hide HasActiveEntry, Apply, Enabled;
    if e.Claim? {
      ClaimIsChecked(s, e);
    }
  }

  /** In such a run a canceled entry stays as it is for good, whatever follows. */
  lemma CancelIsFinalWhenUndisturbed(states: seq<System>, events: seq<Event>, i: nat, j: nat, q: Id)
    requires IsRun(states, events) && Init(states[0]) && i <= j <= |events| && Undisturbed(states, events, i)
    requires EntryIs(states[i], q, QCanceled)
    ensures EntryIs(states[j], q, QCanceled) && states[j].db.queue[q] == states[i].db.queue[q]
  {
    hide Inv, Apply, Enabled, Init, Undisturbed, OneActive;
    UndisturbedRun(states, events, i);
    RunFullInv(states, events, i);
    forall id | Serves(states[i], id, q)
      ensures states[i].starts[id].pc.Over?
    {
      if !states[i].starts[id].pc.Over? {
        CanceledIsServedByChecked(states[i], id, q);
      }
    }
    CanceledStays(states, events, i, j, q);
  }

  // ----- one such cancel is enough ----------------------------------------------------------------------

  lemma CancelTakesEffect(s: System, q: Id)
    requires Enabled(s, Cancel(q))
    ensures EntryIs(Apply(s, Cancel(q)), q, QCanceled) && Apply(s, Cancel(q)).starts == s.starts
  {}

  /** A cancel can be overtaken if and only if it falls between check and claim. */
  lemma CancelIsFinalIffUndisturbing(s: System, q: Id)
    requires FullInv(s) && Enabled(s, Cancel(q))
    ensures (exists e :: Enabled(Apply(s, Cancel(q)), e) && !EntryIs(Apply(Apply(s, Cancel(q)), e), q, QCanceled)) <==>
      Disturbs(s, Cancel(q))
  {
    hide Inv, Apply, Enabled;
    var s' := Apply(s, Cancel(q));
    StepInv(s, Cancel(q));
    StepKeepsWaiting(s, Cancel(q));
    CancelTakesEffect(s, q);
    CanceledIsFinalIffUnserved(s', q);
    if !Unserved(s', q) {
      var id :| Serves(s', id, q) && !s'.starts[id].pc.Over?;
      CanceledIsServedByChecked(s', id, q);
      assert Serves(s, id, q);
    }
    if Disturbs(s, Cancel(q)) {
      var id :| Serves(s, id, q) && s.starts[id].pc.Admitted?;
      assert Serves(s', id, q);
    }
  }

  /** After such a cancel the pair can be queued again, and the claim then gives it two active
      entries. */
  lemma DisturbingCancelDoubles(s: System, q: Id, id: Id, entry: Id)
    requires FullInv(s) && OneActive(s.db.queue) && Enabled(s, Cancel(q)) && Serves(s, id, q) && s.starts[id].pc.Admitted?
    requires entry !in s.db.queue && s.db.queue[q].testcase in s.db.testcases
    ensures
      var canceled := Apply(s, Cancel(q));
      var again := Enqueue(entry, s.db.queue[q].testcase, s.db.queue[q].region);
      && Enabled(canceled, again) && Enabled(Apply(canceled, again), Claim(id))
      && !OneActive(Apply(Apply(canceled, again), Claim(id)).db.queue)
  {
    hide Inv;
    var canceled := Apply(s, Cancel(q));
    var again := Enqueue(entry, s.db.queue[q].testcase, s.db.queue[q].region);
    StartIsOk(s, id);
    assert !HasActiveEntry(canceled.db, s.db.queue[q].testcase, s.db.queue[q].region) by {
      NoneLeft(s.db, q);
    }
    hide HasActiveEntry;
    var end := Apply(Apply(canceled, again), Claim(id)).db.queue;
    assert end[q].status.QRunning? && end[entry].status.QPending?;
  }

  lemma NoneLeft(db: Db, q: Id)
    requires OneActive(db.queue) && q in db.queue && IsActive(db.queue[q].status)
    ensures !HasActiveEntry(Cancelled(db, q), db.queue[q].testcase, db.queue[q].region)
  {}
}
