/**
  What it costs that a row's result and FinalizeJob are separate statements:
  the last row of a job can be final while nobody is left to close the job,
  after a crash in between or after a commit whose answer was lost. A user can
  still cancel such a job, unless it is already cancelling: that one stays
  open for good.
*/
module ImportStranded {
  import opened Options
  import opened ImportModel
  import PreviewHash
  import opened ImportProtocol
  import opened ImportSafety
  import opened ImportTheorems

  predicate Concerns(pc: Worker, id: string) {
    match pc
    case Idle => false
    case Planning(x, _) => x == id
    case Leased(c) => c.job == id
    case Ready(c, _) => c.job == id
    case Failing(c, _) => c.job == id
    case Retrying(c) => c.job == id
    case Finalizing(x, _) => x == id
    case Stopping(x) => x == id
    case StopMarking(x) => x == id
  }

  /**
    The points from which a worker may still come to FinalizeJob for a job with
    nothing pending. A claimed row is then no longer the worker's: with a known
    kind only a transient error on the fifth attempt still fails it, while an
    unknown kind fails every claim.
  */
  predicate MayClose(pc: Worker, id: string, known: bool) {
    && Concerns(pc, id) && !pc.Planning? && !pc.Retrying?
    && (known && (pc.Leased? || pc.Ready?) ==> pc.claim.attempts >= 5)
  }

  /** An open job with no row waiting and no worker in the middle of anything for it. */
  ghost predicate Abandoned(s: State, id: string) {
    && id in s.jobs && Running(s.jobs[id]) && !HasPending(s.jobs[id].rows)
    && (forall w: nat :: !Concerns(WorkerAt(s, w), id))
  }

  ghost predicate SomeoneMayClose(s: State, id: string, known: bool) { exists w: nat :: MayClose(WorkerAt(s, w), id, known) }

  /** A cancelling job with no row waiting and nobody who may still close it. */
  ghost predicate Stuck(s: State, id: string, known: bool) {
    id in s.jobs && s.jobs[id].status.Cancelling? && !HasPending(s.jobs[id].rows) && !SomeoneMayClose(s, id, known)
  }

  /** The step does not find the kind of the job's claimed row missing. */
  predicate FindsKind(s: State, step: Step, id: string) {
    step.KindMissing? ==> !(WorkerAt(s, step.w).Ready? && WorkerAt(s, step.w).claim.job == id)
  }

  /** A run of processes that all know the job's kind, as the one that took the upload did. */
  ghost predicate KindKnown(h: Hashes, s: State, steps: seq<Step>, id: string)
    decreases |steps|
  {
    steps != [] ==> FindsKind(s, steps[0], id) && KindKnown(h, Do(h, s, steps[0]), steps[1..], id)
  }

  /** Some run ends with the job completed or cancelled; when `known`, one of processes that know its kind. */
  ghost predicate CanStillFinish(h: Hashes, s: State, id: string, known: bool) {
    exists steps :: Finishes(h, s, steps, id, known)
  }

  ghost predicate Finishes(h: Hashes, s: State, steps: seq<Step>, id: string, known: bool) {
    (known ==> KindKnown(h, s, steps, id)) && id in Exec(h, s, steps).jobs && Terminal(Exec(h, s, steps).jobs[id])
  }

  // ---- a stuck job stays as it is ------------------------------------------------

  lemma StuckByUsers(h: Hashes, s: State, step: Step, id: string, known: bool)
    requires Stuck(s, id, known)
    requires step.Upload? || step.UserConfirm? || step.UserCancel? || step.Crash? || step.KindMissing?
    ensures id in Do(h, s, step).jobs && Do(h, s, step).jobs[id] == s.jobs[id]
  {
    hide SomeoneMayClose;
  }

  lemma StuckByClaims(h: Hashes, s: State, step: Step, id: string, known: bool)
    requires Stuck(s, id, known) && (step.LeaseNext? || step.ClaimDryRun?)
    ensures id in Do(h, s, step).jobs && Do(h, s, step).jobs[id] == s.jobs[id]
  {
    hide SomeoneMayClose;
    if step.LeaseNext? && step.id == id { assert !CanClaimRow(s.jobs[id], step.rowNo, step.now); }
  }

  lemma UnconcernedLeavesJob(h: Hashes, s: State, step: Step, id: string)
    requires id in s.jobs && !step.Upload? && !step.UserConfirm? && !step.UserCancel? && !step.LeaseNext? && !step.ClaimDryRun?
    requires !Concerns(WorkerAt(s, step.w), id)
    ensures id in Do(h, s, step).jobs && Do(h, s, step).jobs[id] == s.jobs[id]
  {}

  /** A dry-run has lost the job, and a row claimed or postponed is no longer there to apply or postpone. */
  lemma SpentWorkerLeavesJob(h: Hashes, s: State, step: Step, id: string, known: bool)
    requires Stuck(s, id, known) && !step.Upload? && !step.UserConfirm? && !step.UserCancel? && !step.LeaseNext? && !step.ClaimDryRun?
    requires Concerns(WorkerAt(s, step.w), id) && !MayClose(WorkerAt(s, step.w), id, known)
    ensures id in Do(h, s, step).jobs && Do(h, s, step).jobs[id] == s.jobs[id]
  {
    hide SomeoneMayClose;
    var pc := WorkerAt(s, step.w);
    if pc.Retrying? || pc.Ready? { assert !HoldsLease(s.jobs[id].rows, pc.claim.rowNo, pc.claim.attempts); }
  }

  lemma StuckJobStays(h: Hashes, s: State, step: Step, id: string, known: bool)
    requires Stuck(s, id, known)
    ensures id in Do(h, s, step).jobs && Do(h, s, step).jobs[id] == s.jobs[id]
  {
    if step.Upload? || step.UserConfirm? || step.UserCancel? || step.Crash? || step.KindMissing? {
      StuckByUsers(h, s, step, id, known);
    } else if step.LeaseNext? || step.ClaimDryRun? {
      StuckByClaims(h, s, step, id, known);
    } else {
      hide Do;
      assert !MayClose(WorkerAt(s, step.w), id, known);
      if Concerns(WorkerAt(s, step.w), id) { SpentWorkerLeavesJob(h, s, step, id, known); } else { UnconcernedLeavesJob(h, s, step, id); }
    }
  }

  predicate Claimable(s: State, step: Step)
    requires step.LeaseNext?
  {
    step.id in s.jobs && CanClaimRow(s.jobs[step.id], step.rowNo, step.now)
  }

  /** A worker comes to a point before FinalizeJob only from another one, or by claiming a row. */
  lemma WorkerStaysAway(h: Hashes, s: State, step: Step, w: nat, id: string, known: bool)
    requires !MayClose(WorkerAt(s, w), id, known) && id in s.jobs && !HasPending(s.jobs[id].rows)
    requires step.LeaseNext? && step.id == id ==> !Claimable(s, step)
    requires known ==> FindsKind(s, step, id)
    ensures !MayClose(WorkerAt(Do(h, s, step), w), id, known)
  {
    if By(step, w) {
      hide FinishRow, RetryRow, LeaseRow, FailValidation, FinalizeJob, StopRows, CanClaimRow;
      if step.ApplyRow? { ApplyStaysAway(h, s, w, step.outcome, id, known); } else { OwnStepStaysAway(h, s, step, w, id, known); }
    } else {
      OthersLeaveWorker(h, s, step, w);
    }
  }

  lemma OthersLeaveWorker(h: Hashes, s: State, step: Step, w: nat)
    requires !By(step, w)
    ensures WorkerAt(Do(h, s, step), w) == WorkerAt(s, w)
  {
    hide FinishRow, RetryRow, LeaseRow, FailValidation, FinalizeJob, StopRows, MarkApplying, SavePreview, CanClaimRow, Cancel, Confirm;
  }

  lemma OwnStepStaysAway(h: Hashes, s: State, step: Step, w: nat, id: string, known: bool)
    requires By(step, w) && !step.ApplyRow? && !MayClose(WorkerAt(s, w), id, known)
    requires step.LeaseNext? && step.id == id ==> !Claimable(s, step)
    requires known ==> FindsKind(s, step, id)
    ensures !MayClose(WorkerAt(Do(h, s, step), w), id, known)
  {
    hide FinishRow, RetryRow, FailValidation, FinalizeJob, StopRows, SavePreview, Insertable;
  }

  /** Nothing of the job is pending, so its rows are nobody's, and a transient error only postpones. */
  lemma ApplyStaysAway(h: Hashes, s: State, w: nat, outcome: TxOutcome, id: string, known: bool)
    requires !MayClose(WorkerAt(s, w), id, known) && id in s.jobs && !HasPending(s.jobs[id].rows)
    ensures !MayClose(WorkerAt(Do(h, s, ApplyRow(w, outcome)), w), id, known)
  {
    hide FinishRow;
    var pc := WorkerAt(s, w);
    if pc.Ready? && pc.claim.job == id { assert !HoldsLease(s.jobs[id].rows, pc.claim.rowNo, pc.claim.attempts); }
  }

  lemma StuckStep(h: Hashes, s: State, step: Step, id: string, known: bool)
    requires Stuck(s, id, known) && (known ==> FindsKind(s, step, id))
    ensures Stuck(Do(h, s, step), id, known) && Do(h, s, step).jobs[id] == s.jobs[id]
  {
    hide Do;
    StuckJobStays(h, s, step, id, known);
    if step.LeaseNext? && step.id == id { assert !Claimable(s, step); }
    forall w: nat ensures !MayClose(WorkerAt(Do(h, s, step), w), id, known) {
      assert !MayClose(WorkerAt(s, w), id, known);
      WorkerStaysAway(h, s, step, w, id, known);
    }
  }

  lemma {:induction false} StuckRun(h: Hashes, s: State, steps: seq<Step>, id: string, known: bool)
    requires Stuck(s, id, known) && (known ==> KindKnown(h, s, steps, id))
    ensures id in Exec(h, s, steps).jobs && Exec(h, s, steps).jobs[id] == s.jobs[id]
    decreases |steps|
  {
    hide Do;
    if steps != [] {
      StuckStep(h, s, steps[0], id, known);
      StuckRun(h, Do(h, s, steps[0]), steps[1..], id, known);
    }
  }

  lemma StuckNeverFinishes(h: Hashes, s: State, id: string, known: bool)
    requires Stuck(s, id, known)
    ensures !CanStillFinish(h, s, id, known)
  {
    hide Do, Exec, Stuck;
    forall steps ensures !Finishes(h, s, steps, id, known) {
      if known ==> KindKnown(h, s, steps, id) {
        StuckRun(h, s, steps, id, known);
        StuckIsOpen(s, id, known);
      }
    }
  }

  lemma StuckIsOpen(s: State, id: string, known: bool)
    requires Stuck(s, id, known)
    ensures id in s.jobs && !Terminal(s.jobs[id])
  {}

  // ---- every other open job can still be finished ------------------------------------

  lemma FinishesAfter(h: Hashes, s: State, step: Step, id: string, known: bool)
    requires CanStillFinish(h, Do(h, s, step), id, known) && (known ==> FindsKind(s, step, id))
    ensures CanStillFinish(h, s, id, known)
  {
    hide Do;
    var t := Do(h, s, step);
    var rest :| Finishes(h, t, rest, id, known);
    assert ([step] + rest)[0] == step && ([step] + rest)[1..] == rest;
    assert Exec(h, s, [step] + rest) == Exec(h, t, rest);
    assert Finishes(h, s, [step] + rest, id, known);
  }

  lemma FinishesNow(h: Hashes, s: State, id: string, known: bool)
    requires id in s.jobs && Terminal(s.jobs[id])
    ensures CanStillFinish(h, s, id, known)
  {
    hide Do;
    assert Exec(h, s, []) == s;
    assert Finishes(h, s, [], id, known);
  }

  /** How many statements a worker is away from FinalizeJob. */
  function Distance(pc: Worker): nat {
    match pc
    case Leased(_) => 4
    case Ready(_, _) => 3
    case Failing(_, _) => 2
    case Stopping(_) => 2
    case StopMarking(_) => 1
    case _ => 0
  }

  /** A worker's next statement on the way: with a known kind a claim it lost fails by a transient error. */
  function Toward(pc: Worker, w: nat, known: bool): Step {
    match pc
    case Leased(_) => TouchJob(w)
    case Ready(_, _) => if known then ApplyRow(w, Refused(Transient)) else KindMissing(w)
    case Failing(_, _) => StoreRowFailure(w)
    case Stopping(_) => StopWaiting(w)
    case StopMarking(_) => MarkStopped(w)
    case _ => CloseJob(w, 0)
  }

  /** An open job with nothing pending, and a worker on the way to closing it. */
  ghost predicate Closable(s: State, w: nat, id: string, known: bool) {
    && id in s.jobs && Running(s.jobs[id]) && s.jobs[id].confirmedBy.Some? && !HasPending(s.jobs[id].rows)
    && MayClose(WorkerAt(s, w), id, known)
  }

  lemma StepTowardClose(h: Hashes, s: State, w: nat, id: string, known: bool)
    requires Closable(s, w, id, known)
    ensures var t := Do(h, s, Toward(WorkerAt(s, w), w, known));
            if WorkerAt(s, w).Finalizing? then id in t.jobs && Terminal(t.jobs[id])
            else Closable(t, w, id, known) && Distance(WorkerAt(t, w)) < Distance(WorkerAt(s, w))
  {
    hide HasPending, StopRows, FinishRow;
    var pc := WorkerAt(s, w);
    if pc.Failing? { NothingToFinish(s.jobs[id].rows, pc.claim); }
    if pc.Stopping? { NothingToStop(s.jobs[id].rows); }
  }

  lemma NothingToFinish(rows: Rows, c: Claim)
    requires !HasPending(rows)
    ensures FinishRow(rows, c.rowNo, c.attempts, RowFailed) == rows
  {}

  lemma NothingToStop(rows: Rows)
    requires !HasPending(rows)
    ensures StopRows(rows) == rows
  {
    forall k | k in rows ensures StopRows(rows)[k] == rows[k] { assert !Pending(rows[k]); }
  }

  lemma {:induction false} ClosableFinishes(h: Hashes, s: State, w: nat, id: string, known: bool)
    requires Closable(s, w, id, known)
    ensures CanStillFinish(h, s, id, known)
    decreases Distance(WorkerAt(s, w))
  {
    hide Do, Closable, CanStillFinish;
    var step := Toward(WorkerAt(s, w), w, known);
    StepTowardClose(h, s, w, id, known);
    if WorkerAt(s, w).Finalizing? {
      FinishesNow(h, Do(h, s, step), id, known);
    } else {
      ClosableFinishes(h, Do(h, s, step), w, id, known);
    }
    FinishesAfter(h, s, step, id, known);
  }

  // ---- a job with rows in flight ------------------------------------------------------

  /** The owner refuses the row, or its kind is unknown. */
  function Refusal(known: bool): Step { if known then ApplyRow(0, Refused(Rejected)) else KindMissing(0) }

  /** A free worker takes over the row after its lease and fails it. */
  function TakeOver(id: string, k: int, now: int, known: bool): seq<Step> {
    [Crash(0), LeaseNext(0, id, k, now), TouchJob(0), Refusal(known), StoreRowFailure(0)]
  }

  function Failed(r: Row): Row { r.(status := RowFailed, attempts := r.attempts + 1, leaseUntil := None) }

  lemma TakenOver(h: Hashes, s: State, id: string, k: int, known: bool)
    requires id in s.jobs && s.jobs[id].status.Cancelling? && s.jobs[id].confirmedBy.Some?
    requires k in s.jobs[id].rows && s.jobs[id].rows[k].status.RowApplying? && s.jobs[id].rows[k].leaseUntil.Some?
    ensures var t := Exec(h, s, TakeOver(id, k, s.jobs[id].rows[k].leaseUntil.value + 1, known));
            && id in t.jobs && t.jobs[id] == s.jobs[id].(rows := s.jobs[id].rows[k := Failed(s.jobs[id].rows[k])])
            && WorkerAt(t, 0) == Finalizing(id, false)
  {
    hide Do, Exec;
    var j, r := s.jobs[id], s.jobs[id].rows[k];
    var now := r.leaseUntil.value + 1;
    RowLeasedAgain(h, s, id, k, now);
    var s2 := Do(h, Do(h, s, Crash(0)), LeaseNext(0, id, k, now));
    LeasedRowFails(h, s2, Claim(id, k, r.attempts + 1, r.plan), known);
    assert j.rows[k := LeaseRow(r, now)][k := Failed(r)] == j.rows[k := Failed(r)];
    FiveSteps(h, s, Crash(0), LeaseNext(0, id, k, now), TouchJob(0), Refusal(known), StoreRowFailure(0));
  }

  lemma RowLeasedAgain(h: Hashes, s: State, id: string, k: int, now: int)
    requires id in s.jobs && k in s.jobs[id].rows && s.jobs[id].rows[k].status.RowApplying?
    requires s.jobs[id].rows[k].leaseUntil.Some? && s.jobs[id].rows[k].leaseUntil.value < now
    ensures var t := Do(h, Do(h, s, Crash(0)), LeaseNext(0, id, k, now));
            var r := s.jobs[id].rows[k];
            && t.jobs == s.jobs[id := s.jobs[id].(rows := s.jobs[id].rows[k := LeaseRow(r, now)])]
            && WorkerAt(t, 0) == Leased(Claim(id, k, r.attempts + 1, r.plan))
  {}

  lemma LeasedRowFails(h: Hashes, s: State, c: Claim, known: bool)
    requires WorkerAt(s, 0) == Leased(c) && c.job in s.jobs && s.jobs[c.job].status.Cancelling? && s.jobs[c.job].confirmedBy.Some?
    requires HoldsLease(s.jobs[c.job].rows, c.rowNo, c.attempts)
    ensures var t := Do(h, Do(h, Do(h, s, TouchJob(0)), Refusal(known)), StoreRowFailure(0));
            && t.jobs == s.jobs[c.job := s.jobs[c.job].(rows := FinishRow(s.jobs[c.job].rows, c.rowNo, c.attempts, RowFailed))]
            && WorkerAt(t, 0) == Finalizing(c.job, false)
  {
    var t := Do(h, s, TouchJob(0));
    assert t.jobs == s.jobs;
  }

  lemma FiveSteps(h: Hashes, s: State, a: Step, b: Step, c: Step, d: Step, e: Step)
    ensures Exec(h, s, [a, b, c, d, e]) == Do(h, Do(h, Do(h, Do(h, Do(h, s, a), b), c), d), e)
  {
    hide Do;
    assert [a, b, c, d, e] == [a, b, c] + [d, e];
    ExecCompose(h, s, [a, b, c], [d, e]);
    ThreeSteps(h, s, a, b, c);
    var t := Exec(h, s, [a, b, c]);
    assert [d, e][1..] == [e];
    assert Exec(h, Do(h, t, d), [e]) == Do(h, Do(h, t, d), e);
  }

  lemma {:induction false} FinishesAfterRun(h: Hashes, s: State, steps: seq<Step>, id: string, known: bool)
    requires CanStillFinish(h, Exec(h, s, steps), id, known)
    requires known ==> forall n :: 0 <= n < |steps| ==> !steps[n].KindMissing?
    ensures CanStillFinish(h, s, id, known)
    decreases |steps|
  {
    hide Do, CanStillFinish;
    if steps != [] {
      FinishesAfterRun(h, Do(h, s, steps[0]), steps[1..], id, known);
      FinishesAfter(h, s, steps[0], id, known);
    }
  }

  function PendingRows(rows: Rows): set<int> { set k | k in rows && Pending(rows[k]) }

  /** Rows in flight are taken over one by one, and the last one closes the job. */
  lemma {:induction false} InFlightFinishes(h: Hashes, s: State, id: string, known: bool)
    requires Inv(h, s) && id in s.jobs && s.jobs[id].status.Cancelling? && HasPending(s.jobs[id].rows)
    ensures CanStillFinish(h, s, id, known)
    decreases |PendingRows(s.jobs[id].rows)|
  {
    hide Inv, Do, Exec, CanStillFinish;
    var rows := s.jobs[id].rows;
    JobFact(h, s, id);
    var k :| k in rows && Pending(rows[k]);
    ApplyingRow(s.jobs[id], k);
    var steps := TakeOver(id, k, rows[k].leaseUntil.value + 1, known);
    var t := Exec(h, s, steps);
    TakenOver(h, s, id, k, known);
    RunKeeps(h, s, steps);
    if HasPending(t.jobs[id].rows) {
      assert PendingRows(t.jobs[id].rows) == PendingRows(rows) - {k};
      InFlightFinishes(h, t, id, known);
    } else {
      ClosableFinishes(h, t, 0, id, known);
    }
    FinishesAfterRun(h, s, steps, id, known);
  }

  lemma ApplyingRow(j: Job, k: int)
    requires JobInv(j) && j.status.Cancelling? && k in j.rows && Pending(j.rows[k])
    ensures j.rows[k].status.RowApplying? && j.rows[k].leaseUntil.Some? && j.confirmedBy.Some?
  {
    assert RowInv(j, j.rows[k]);
  }

  lemma CancelFinishes(h: Hashes, s: State, id: string, known: bool)
    requires Inv(h, s) && id in s.jobs && Running(s.jobs[id]) && !s.jobs[id].status.Cancelling?
    ensures CanStillFinish(h, s, id, known)
  {
    hide Inv, CanStillFinish;
    var step := UserCancel(id, 0);
    var t := Do(h, s, step);
    StepKeeps(h, s, step);
    if t.jobs[id].status.Cancelling? {
      var k :| k in t.jobs[id].rows && t.jobs[id].rows[k].status.RowApplying?;
      assert Pending(t.jobs[id].rows[k]);
      InFlightFinishes(h, t, id, known);
    } else {
      FinishesNow(h, t, id, known);
    }
    FinishesAfter(h, s, step, id, known);
  }

  // ---- exactly which open jobs can finish ------------------------------------------------

  /**
    In every reachable state an open job can still be finished exactly when it
    is not cancelling, a row of it is still waiting or in flight, or a worker
    is at a point from which FinalizeJob may follow: a failure to be stored,
    the job being stopped or closed, or a row of the job claimed and not
    postponed. A claim counts only on its fifth attempt when every process
    knows the job's kind (`known`), and always when one may not.
  */
  lemma OpenJobFinishesIff(h: Hashes, s: State, id: string, known: bool)
    requires Inv(h, s) && id in s.jobs && Running(s.jobs[id])
    ensures CanStillFinish(h, s, id, known)
       <==> !s.jobs[id].status.Cancelling? || HasPending(s.jobs[id].rows) || SomeoneMayClose(s, id, known)
  {
    hide Inv, Do, Exec, CanStillFinish;
    if !s.jobs[id].status.Cancelling? {
      CancelFinishes(h, s, id, known);
    } else if HasPending(s.jobs[id].rows) {
      InFlightFinishes(h, s, id, known);
    } else if SomeoneMayClose(s, id, known) {
      var w: nat :| MayClose(WorkerAt(s, w), id, known);
      JobFact(h, s, id);
      ClosableFinishes(h, s, w, id, known);
    } else {
      StuckNeverFinishes(h, s, id, known);
    }
  }

  /** An abandoned job can still finish exactly when it is not cancelling, whether or not its kind is known. */
  lemma AbandonedFinishesIffNotCancelling(h: Hashes, s: State, id: string, known: bool)
    requires Abandoned(s, id)
    ensures CanStillFinish(h, s, id, known) <==> !s.jobs[id].status.Cancelling?
  {
    if s.jobs[id].status.Cancelling? {
      StuckNeverFinishes(h, s, id, known);
    } else {
      NothingToStop(s.jobs[id].rows);
      FinishesNow(h, Do(h, s, UserCancel(id, 0)), id, known);
      FinishesAfter(h, s, UserCancel(id, 0), id, known);
    }
  }

  // ---- such a state is reachable ---------------------------------------------

  const OnePlan := RowPlan("sku", "{}", None)

  const OneRow := [PlannedRow(1, RowValid, OnePlan)]

  function PreviewHashOf(h: Hashes): string { PreviewHash.Of(h, OneRow) }

  function JobWith(h: Hashes, status: JobStatus, version: int, confirmedBy: Option<string>, row: Row): Job {
    Job(status, version, 1, VALIDATION_LEASE, PreviewHashOf(h), Some(0), confirmedBy, "", None, map[1 := row])
  }

  function Upto(h: Hashes, j: Job, workers: map<nat, Worker>, effects: seq<Effect>, confirmations: seq<Confirmation>): State {
    State(map["job" := j], workers, effects, map["job" := OneRow], confirmations)
  }

  function Preview(h: Hashes): seq<Step> { [Upload("job", 0), ClaimDryRun(0, "job", 0), StorePreview(0, OneRow, 0)] }

  function ConfirmAndClaim(h: Hashes): seq<Step> {
    [UserConfirm("job", "ann", ConfirmInput(PreviewHashOf(h), 2, false), 0, true, false), LeaseNext(1, "job", 1, 0), TouchJob(1)]
  }

  function CancelApplyCrash(): seq<Step> { [UserCancel("job", 0), ApplyRow(1, Committed(false)), Crash(1)] }

  /** Upload, dry-run, confirm, claim the only row, cancel while it is applying, apply it, crash. */
  function CrashAfterLastRow(h: Hashes): seq<Step> { Preview(h) + ConfirmAndClaim(h) + CancelApplyCrash() }

  function Previewed(h: Hashes): State {
    Upto(h, JobWith(h, PreviewReady, 2, None, Row(OnePlan, RowValid, 0, None)), map[0 := Idle], [], [])
  }

  function Claimed(h: Hashes): State {
    Upto(h, JobWith(h, Applying, 3, Some("ann"), Row(OnePlan, RowApplying, 1, Some(ROW_LEASE))),
         map[0 := Idle, 1 := Ready(Claim("job", 1, 1, OnePlan), "ann")], [], [Confirmation("job", "ann", PreviewHashOf(h))])
  }

  function Stranded(h: Hashes): State {
    Upto(h, JobWith(h, Cancelling, 4, Some("ann"), Row(OnePlan, RowSucceeded, 1, None)),
         map[0 := Idle, 1 := Idle], [Effect("job", 1, "ann", OnePlan, false)], [Confirmation("job", "ann", PreviewHashOf(h))])
  }

  lemma ThreeSteps(h: Hashes, s: State, a: Step, b: Step, c: Step)
    ensures Exec(h, s, [a, b, c]) == Do(h, Do(h, Do(h, s, a), b), c)
  {
    assert [a, b, c][1..] == [b, c] && [b, c][1..] == [c];
    assert Exec(h, Do(h, Do(h, s, a), b), [c]) == Do(h, Do(h, Do(h, s, a), b), c);
  }

  lemma ReachPreviewed(h: Hashes)
    ensures Exec(h, Start, Preview(h)) == Previewed(h)
  {
    ThreeSteps(h, Start, Upload("job", 0), ClaimDryRun(0, "job", 0), StorePreview(0, OneRow, 0));
    var s2 := Do(h, Do(h, Start, Upload("job", 0)), ClaimDryRun(0, "job", 0));
    assert s2 == State(map["job" := ClaimValidation(NewJob(0), 0)], map[0 := Planning("job", 1)], [], map[], []);
    assert RowsOf(OneRow) == RowsOf([])[1 := Row(OnePlan, RowValid, 0, None)] by { assert OneRow[..0] == []; }
    assert Do(h, s2, StorePreview(0, OneRow, 0)).workers == Previewed(h).workers;
    assert Do(h, s2, StorePreview(0, OneRow, 0)).previews == Previewed(h).previews;
    assert Do(h, s2, StorePreview(0, OneRow, 0)).jobs == Previewed(h).jobs;
  }

  function ConfirmationMade(h: Hashes): seq<Confirmation> { [Confirmation("job", "ann", PreviewHashOf(h))] }

  function ConfirmedOnly(h: Hashes): State {
    Upto(h, JobWith(h, Confirmed, 3, Some("ann"), Row(OnePlan, RowValid, 0, None)), map[0 := Idle], [], ConfirmationMade(h))
  }

  function LeasedOnly(h: Hashes): State {
    Upto(h, JobWith(h, Confirmed, 3, Some("ann"), Row(OnePlan, RowApplying, 1, Some(ROW_LEASE))),
         map[0 := Idle, 1 := Leased(Claim("job", 1, 1, OnePlan))], [], ConfirmationMade(h))
  }

  lemma ConfirmIt(h: Hashes)
    ensures Do(h, Previewed(h), UserConfirm("job", "ann", ConfirmInput(PreviewHashOf(h), 2, false), 0, true, false)) == ConfirmedOnly(h)
  {
    var s := Previewed(h);
    assert HasPending(s.jobs["job"].rows) by { assert 1 in s.jobs["job"].rows; }
  }

  lemma LeaseIt(h: Hashes)
    ensures Do(h, ConfirmedOnly(h), LeaseNext(1, "job", 1, 0)) == LeasedOnly(h)
  {
    var u := Do(h, ConfirmedOnly(h), LeaseNext(1, "job", 1, 0));
    assert u.jobs["job"].rows == map[1 := Row(OnePlan, RowApplying, 1, Some(ROW_LEASE))];
    assert u.workers == LeasedOnly(h).workers;
    assert u.jobs == LeasedOnly(h).jobs;
  }

  lemma TouchIt(h: Hashes)
    ensures Do(h, LeasedOnly(h), TouchJob(1)) == Claimed(h)
  {
    assert Do(h, LeasedOnly(h), TouchJob(1)).workers == Claimed(h).workers;
    assert Do(h, LeasedOnly(h), TouchJob(1)).jobs == Claimed(h).jobs;
  }

  lemma ReachClaimed(h: Hashes)
    ensures Exec(h, Previewed(h), ConfirmAndClaim(h)) == Claimed(h)
  {
    ThreeSteps(h, Previewed(h), UserConfirm("job", "ann", ConfirmInput(PreviewHashOf(h), 2, false), 0, true, false),
               LeaseNext(1, "job", 1, 0), TouchJob(1));
    ConfirmIt(h);
    LeaseIt(h);
    TouchIt(h);
  }

  function CancelledMidway(h: Hashes): State {
    Upto(h, JobWith(h, Cancelling, 4, Some("ann"), Row(OnePlan, RowApplying, 1, Some(ROW_LEASE))),
         map[0 := Idle, 1 := Ready(Claim("job", 1, 1, OnePlan), "ann")], [], [Confirmation("job", "ann", PreviewHashOf(h))])
  }

  lemma CancelMidway(h: Hashes)
    ensures Do(h, Claimed(h), UserCancel("job", 0)) == CancelledMidway(h)
  {
    var rows := map[1 := Row(OnePlan, RowApplying, 1, Some(ROW_LEASE))];
    assert StopRows(rows) == rows;
    assert HasApplying(rows) by { assert 1 in rows; }
    assert Do(h, Claimed(h), UserCancel("job", 0)).jobs == CancelledMidway(h).jobs;
  }

  lemma ApplyAndCrash(h: Hashes)
    ensures Do(h, Do(h, CancelledMidway(h), ApplyRow(1, Committed(false))), Crash(1)) == Stranded(h)
  {
    var u := Do(h, CancelledMidway(h), ApplyRow(1, Committed(false)));
    assert u.effects == Stranded(h).effects;
    assert u.jobs["job"].rows == map[1 := Row(OnePlan, RowSucceeded, 1, None)];
    assert u.jobs == Stranded(h).jobs;
    assert Do(h, u, Crash(1)).workers == Stranded(h).workers;
  }

  lemma ReachStranded(h: Hashes)
    ensures Exec(h, Claimed(h), CancelApplyCrash()) == Stranded(h)
  {
    ThreeSteps(h, Claimed(h), UserCancel("job", 0), ApplyRow(1, Committed(false)), Crash(1));
    CancelMidway(h);
    ApplyAndCrash(h);
  }

  /** The run above ends with a succeeded row in a job that no later step can ever close. */
  lemma CrashCanStrandAJob(h: Hashes)
    ensures Exec(h, Start, CrashAfterLastRow(h)) == Stranded(h)
    ensures Abandoned(Stranded(h), "job") && !CanStillFinish(h, Stranded(h), "job", false)
  {
    ReachPreviewed(h);
    ReachClaimed(h);
    ReachStranded(h);
    ExecCompose(h, Start, Preview(h) + ConfirmAndClaim(h), CancelApplyCrash());
    ExecCompose(h, Start, Preview(h), ConfirmAndClaim(h));
    assert Abandoned(Stranded(h), "job");
    AbandonedFinishesIffNotCancelling(h, Stranded(h), "job", false);
  }

  /** The same steps, but the commit's answer is lost and the applier postpones a row that is already final. */
  function AnswerLostOnLastRow(h: Hashes): seq<Step> {
    Preview(h) + ConfirmAndClaim(h) + [UserCancel("job", 0), ApplyRow(1, AnswerLost(false)), StoreRetry(1, 300)]
  }

  lemma LoseAnswerAndPostpone(h: Hashes)
    ensures Do(h, Do(h, CancelledMidway(h), ApplyRow(1, AnswerLost(false))), StoreRetry(1, 300)) == Stranded(h)
  {
    var u := Do(h, CancelledMidway(h), ApplyRow(1, AnswerLost(false)));
    assert u.effects == Stranded(h).effects;
    assert u.jobs["job"].rows == map[1 := Row(OnePlan, RowSucceeded, 1, None)];
    assert WorkerAt(u, 1) == Retrying(Claim("job", 1, 1, OnePlan));
    var t := Do(h, u, StoreRetry(1, 300));
    assert t.jobs == Stranded(h).jobs;
    assert t.workers == Stranded(h).workers;
  }

  /** No crash is needed: one lost commit answer leaves the same job open for good. */
  lemma LostAnswerCanStrandAJob(h: Hashes)
    ensures Exec(h, Start, AnswerLostOnLastRow(h)) == Stranded(h) && !CanStillFinish(h, Stranded(h), "job", false)
  {
    hide CanStillFinish;
    CrashCanStrandAJob(h);
    ReachPreviewed(h);
    ReachClaimed(h);
    var last := [UserCancel("job", 0), ApplyRow(1, AnswerLost(false)), StoreRetry(1, 300)];
    ThreeSteps(h, Claimed(h), last[0], last[1], last[2]);
    CancelMidway(h);
    LoseAnswerAndPostpone(h);
    hide Do, Exec;
    ExecCompose(h, Start, Preview(h) + ConfirmAndClaim(h), last);
    ExecCompose(h, Start, Preview(h), ConfirmAndClaim(h));
  }

  // ---- a stale claim does not help ------------------------------------------------------

  /**
    The first applier is slow: its lease passes, a second one takes the row
    over, the user cancels, and the second one applies the row and crashes.
  */
  function TakenOverAndCrashed(h: Hashes): seq<Step> {
    Preview(h) + ConfirmAndClaim(h) + [LeaseNext(2, "job", 1, 200), TouchJob(2)]
    + [UserCancel("job", 201), ApplyRow(2, Committed(false)), Crash(2)]
  }

  function TakenTwice(h: Hashes, status: JobStatus, version: int): State {
    Upto(h, JobWith(h, status, version, Some("ann"), Row(OnePlan, RowApplying, 2, Some(200 + ROW_LEASE))),
         map[0 := Idle, 1 := Ready(Claim("job", 1, 1, OnePlan), "ann"), 2 := Ready(Claim("job", 1, 2, OnePlan), "ann")], [], ConfirmationMade(h))
  }

  /** The slow applier still holds its first claim, and nobody else is left. */
  function StaleLeft(h: Hashes): State {
    Upto(h, JobWith(h, Cancelling, 4, Some("ann"), Row(OnePlan, RowSucceeded, 2, None)),
         map[0 := Idle, 1 := Ready(Claim("job", 1, 1, OnePlan), "ann"), 2 := Idle], [Effect("job", 1, "ann", OnePlan, false)], ConfirmationMade(h))
  }

  function SecondLease(h: Hashes): State {
    TakenTwice(h, Applying, 3).(workers := Claimed(h).workers[2 := Leased(Claim("job", 1, 2, OnePlan))])
  }

  lemma LeaseAgain(h: Hashes)
    ensures Do(h, Claimed(h), LeaseNext(2, "job", 1, 200)) == SecondLease(h)
  {
    var u := Do(h, Claimed(h), LeaseNext(2, "job", 1, 200));
    assert u.jobs["job"].rows == map[1 := Row(OnePlan, RowApplying, 2, Some(200 + ROW_LEASE))];
    assert u.jobs == SecondLease(h).jobs;
  }

  lemma TouchAgain(h: Hashes)
    ensures Do(h, SecondLease(h), TouchJob(2)) == TakenTwice(h, Applying, 3)
  {
    var t := Do(h, SecondLease(h), TouchJob(2));
    assert t.jobs == SecondLease(h).jobs;
    assert t.workers == TakenTwice(h, Applying, 3).workers;
  }

  lemma CancelTwice(h: Hashes)
    ensures Do(h, TakenTwice(h, Applying, 3), UserCancel("job", 201)) == TakenTwice(h, Cancelling, 4)
  {
    var rows := map[1 := Row(OnePlan, RowApplying, 2, Some(200 + ROW_LEASE))];
    assert StopRows(rows) == rows;
    assert HasApplying(rows) by { assert 1 in rows; }
    assert Do(h, TakenTwice(h, Applying, 3), UserCancel("job", 201)).jobs == TakenTwice(h, Cancelling, 4).jobs;
  }

  lemma ApplySecondAndCrash(h: Hashes)
    ensures Do(h, Do(h, TakenTwice(h, Cancelling, 4), ApplyRow(2, Committed(false))), Crash(2)) == StaleLeft(h)
  {
    var u := Do(h, TakenTwice(h, Cancelling, 4), ApplyRow(2, Committed(false)));
    assert u.effects == StaleLeft(h).effects;
    assert u.jobs["job"].rows == map[1 := Row(OnePlan, RowSucceeded, 2, None)];
    assert u.jobs == StaleLeft(h).jobs;
    assert Do(h, u, Crash(2)).workers == StaleLeft(h).workers;
  }

  lemma ReachStaleLeft(h: Hashes)
    ensures Exec(h, Start, TakenOverAndCrashed(h)) == StaleLeft(h)
  {
    ReachPreviewed(h);
    ReachClaimed(h);
    var again := [LeaseNext(2, "job", 1, 200), TouchJob(2)];
    var last := [UserCancel("job", 201), ApplyRow(2, Committed(false)), Crash(2)];
    LeaseAgain(h);
    TouchAgain(h);
    CancelTwice(h);
    ApplySecondAndCrash(h);
    hide Do;
    ThreeSteps(h, TakenTwice(h, Applying, 3), last[0], last[1], last[2]);
    assert again[1..] == [TouchJob(2)];
    assert Exec(h, Do(h, Claimed(h), again[0]), [TouchJob(2)]) == Do(h, Do(h, Claimed(h), again[0]), TouchJob(2));
    assert Exec(h, Claimed(h), again) == TakenTwice(h, Applying, 3);
    hide Exec;
    ExecCompose(h, Start, Preview(h) + ConfirmAndClaim(h) + again, last);
    ExecCompose(h, Start, Preview(h) + ConfirmAndClaim(h), again);
    ExecCompose(h, Start, Preview(h), ConfirmAndClaim(h));
  }

  /**
    A claim that was taken over does not save its job: no run of processes that
    know the kind closes it, although the slow applier is still at work on it.
    Only a process that does not know the kind would.
  */
  lemma StaleClaimCanStrandAJob(h: Hashes)
    ensures Exec(h, Start, TakenOverAndCrashed(h)) == StaleLeft(h)
    ensures WorkerAt(StaleLeft(h), 1).Ready? && WorkerAt(StaleLeft(h), 1).claim.job == "job"
    ensures !CanStillFinish(h, StaleLeft(h), "job", true) && CanStillFinish(h, StaleLeft(h), "job", false)
  {
    hide Inv, CanStillFinish, Exec, Do;
    ReachStaleLeft(h);
    EveryRun(h, TakenOverAndCrashed(h));
    var s := StaleLeft(h);
    assert MayClose(WorkerAt(s, 1), "job", false);
    assert forall w: nat :: !MayClose(WorkerAt(s, w), "job", true);
    OpenJobFinishesIff(h, s, "job", true);
    OpenJobFinishesIff(h, s, "job", false);
  }
}
