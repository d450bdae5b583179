/**
  Termination of the import engine in runs without crashes, lost leases and
  lost commit answers: every claim spends one unit of a bounded budget, and a
  confirmed job is never left with nothing to do and nobody to close it.
*/
module ImportProgress {
  import opened Options
  import opened Tally
  import opened ImportModel
  import opened ImportProtocol
  import opened ImportSafety
  import opened ImportTheorems

  predicate HoldsRow(pc: Worker, id: string, k: int) {
    ClaimHeld(pc).Some? && ClaimHeld(pc).value.job == id && ClaimHeld(pc).value.rowNo == k
  }

  ghost predicate RowHeld(s: State, id: string, k: int) {
    exists w: nat :: HoldsRow(WorkerAt(s, w), id, k)
  }

  /** A worker whose next statements include FinalizeJob for the job. */
  predicate Owes(pc: Worker, id: string) {
    (pc.Finalizing? || pc.Stopping? || pc.StopMarking?) && pc.job == id
  }

  ghost predicate SomeoneOwes(s: State, id: string) {
    exists w: nat :: Owes(WorkerAt(s, w), id)
  }

  ghost predicate FaultFree(s: State, step: Step) {
    match step
    case Crash(_) => false
    case ApplyRow(_, outcome) => !outcome.AnswerLost?
    case LeaseNext(_, id, k, _) => !RowHeld(s, id, k)
    case _ => true
  }

  ghost predicate FaultFreeRun(h: Hashes, s: State, steps: seq<Step>)
    decreases |steps|
  {
    steps != [] ==> FaultFree(s, steps[0]) && FaultFreeRun(h, Do(h, s, steps[0]), steps[1..])
  }

  // ---- the invariant of fault-free runs --------------------------------------

  ghost predicate ClaimLive(s: State, c: Claim) {
    c.job in s.jobs && HoldsLease(s.jobs[c.job].rows, c.rowNo, c.attempts) && c.attempts <= MAX_APPLY_ATTEMPTS
  }

  ghost predicate WorkerLive(s: State, pc: Worker) {
    && (ClaimHeld(pc).Some? ==> ClaimLive(s, ClaimHeld(pc).value))
    && (pc.Retrying? ==> pc.claim.attempts < MAX_APPLY_ATTEMPTS)
  }

  ghost predicate WorkersLive(s: State) {
    forall w: nat :: WorkerLive(s, WorkerAt(s, w))
  }

  ghost predicate OneHolder(s: State) {
    forall v: nat, w: nat, id, k :: HoldsRow(WorkerAt(s, v), id, k) && HoldsRow(WorkerAt(s, w), id, k) ==> v == w
  }

  ghost predicate RowLive(s: State, id: string, k: int)
    requires id in s.jobs && k in s.jobs[id].rows
  {
    s.jobs[id].rows[k].status.RowApplying? ==> s.jobs[id].rows[k].attempts < MAX_APPLY_ATTEMPTS || RowHeld(s, id, k)
  }

  ghost predicate RowsLive(s: State) {
    forall id, k :: id in s.jobs && k in s.jobs[id].rows ==> RowLive(s, id, k)
  }

  ghost predicate JobLive(s: State, id: string)
    requires id in s.jobs
  {
    Running(s.jobs[id]) ==> HasPending(s.jobs[id].rows) || SomeoneOwes(s, id)
  }

  ghost predicate JobsLive(s: State) {
    forall id :: id in s.jobs ==> JobLive(s, id)
  }

  ghost predicate Live(s: State) {
    WorkersLive(s) && OneHolder(s) && RowsLive(s) && JobsLive(s)
  }

  // ---- a step of one worker on one job ---------------------------------------

  /** Only worker `w` moves (from pc to pc2) and only job `id` changes (from j to j2). */
  ghost predicate Local(s: State, t: State, w: nat, id: string) {
    && id in s.jobs && id in t.jobs && t.jobs == s.jobs[id := t.jobs[id]]
    && (forall v: nat :: v != w ==> WorkerAt(t, v) == WorkerAt(s, v))
  }

  /** The worker keeps its claim, drops one on this job, or takes a row nobody held. */
  ghost predicate ClaimsMove(s: State, pc: Worker, pc2: Worker, id: string) {
    && (forall x, k :: HoldsRow(pc2, x, k) ==> HoldsRow(pc, x, k) || !RowHeld(s, x, k))
    && (forall x, k :: HoldsRow(pc, x, k) ==> x == id || HoldsRow(pc2, x, k))
    && (forall x :: Owes(pc, x) ==> x == id || Owes(pc2, x))
  }

  /** Rows held by others keep their lease; an applying row is fresh, held by the worker, or untouched. */
  ghost predicate RowsMove(s: State, rows: Rows, rows2: Rows, pc: Worker, pc2: Worker, id: string) {
    && (forall k :: k in rows && rows[k].status.RowApplying? && RowHeld(s, id, k) && !HoldsRow(pc, id, k) ==>
          HoldsLease(rows2, k, rows[k].attempts))
    && (forall k :: k in rows2 && rows2[k].status.RowApplying? ==>
          || rows2[k].attempts < MAX_APPLY_ATTEMPTS || HoldsRow(pc2, id, k)
          || (k in rows && rows[k].status.RowApplying? && rows[k].attempts == rows2[k].attempts && !HoldsRow(pc, id, k)))
  }

  ghost predicate JobMoves(j: Job, j2: Job, pc: Worker, pc2: Worker, id: string) {
    Running(j2) && !HasPending(j2.rows) ==> Owes(pc2, id) || (Running(j) && !HasPending(j.rows) && !Owes(pc, id))
  }

  lemma LocalWorkersLive(s: State, t: State, w: nat, id: string)
    requires WorkersLive(s) && Local(s, t, w, id) && WorkerLive(t, WorkerAt(t, w))
    requires OneHolder(s) && RowsMove(s, s.jobs[id].rows, t.jobs[id].rows, WorkerAt(s, w), WorkerAt(t, w), id)
    ensures WorkersLive(t)
  {
    forall v: nat ensures WorkerLive(t, WorkerAt(t, v)) {
      if v != w {
        assert WorkerLive(s, WorkerAt(s, v));
        if ClaimHeld(WorkerAt(s, v)).Some? {
          var c := ClaimHeld(WorkerAt(s, v)).value;
          assert HoldsRow(WorkerAt(s, v), c.job, c.rowNo);
          assert RowHeld(s, c.job, c.rowNo);
          assert !HoldsRow(WorkerAt(s, w), c.job, c.rowNo);
        }
      }
    }
  }

  lemma LocalOneHolder(s: State, t: State, w: nat, id: string)
    requires OneHolder(s) && Local(s, t, w, id) && ClaimsMove(s, WorkerAt(s, w), WorkerAt(t, w), id)
    ensures OneHolder(t)
  {
    forall u: nat, v: nat, x, k | HoldsRow(WorkerAt(t, u), x, k) && HoldsRow(WorkerAt(t, v), x, k) ensures u == v {
      if u != w { assert HoldsRow(WorkerAt(s, u), x, k) && RowHeld(s, x, k); }
      if v != w { assert HoldsRow(WorkerAt(s, v), x, k) && RowHeld(s, x, k); }
    }
  }

  lemma HeldStays(s: State, t: State, w: nat, id: string, x: string, k: int)
    requires Local(s, t, w, id) && RowHeld(s, x, k)
    requires HoldsRow(WorkerAt(s, w), x, k) ==> HoldsRow(WorkerAt(t, w), x, k)
    ensures RowHeld(t, x, k)
  {
    var v: nat :| HoldsRow(WorkerAt(s, v), x, k);
    assert HoldsRow(WorkerAt(t, v), x, k);
  }

  lemma LocalRowsLive(s: State, t: State, w: nat, id: string)
    requires RowsLive(s) && Local(s, t, w, id) && ClaimsMove(s, WorkerAt(s, w), WorkerAt(t, w), id)
    requires RowsMove(s, s.jobs[id].rows, t.jobs[id].rows, WorkerAt(s, w), WorkerAt(t, w), id)
    ensures RowsLive(t)
  {
    forall x, k | x in t.jobs && k in t.jobs[x].rows ensures RowLive(t, x, k) {
      var r := t.jobs[x].rows[k];
      if r.status.RowApplying? && r.attempts >= MAX_APPLY_ATTEMPTS && !HoldsRow(WorkerAt(t, w), x, k) {
        assert k in s.jobs[x].rows && RowLive(s, x, k);
        HeldStays(s, t, w, id, x, k);
      }
    }
  }

  lemma LocalJobsLive(s: State, t: State, w: nat, id: string)
    requires JobsLive(s) && Local(s, t, w, id) && ClaimsMove(s, WorkerAt(s, w), WorkerAt(t, w), id)
    requires JobMoves(s.jobs[id], t.jobs[id], WorkerAt(s, w), WorkerAt(t, w), id)
    ensures JobsLive(t)
  {
    forall x | x in t.jobs ensures JobLive(t, x) {
      if Running(t.jobs[x]) && !HasPending(t.jobs[x].rows) && !Owes(WorkerAt(t, w), x) {
        assert JobLive(s, x);
        var v: nat :| Owes(WorkerAt(s, v), x);
        assert v != w;
        assert Owes(WorkerAt(t, v), x);
      }
    }
  }

  lemma LocalLive(s: State, t: State, w: nat, id: string)
    requires Live(s) && Local(s, t, w, id) && WorkerLive(t, WorkerAt(t, w))
    requires ClaimsMove(s, WorkerAt(s, w), WorkerAt(t, w), id)
    requires RowsMove(s, s.jobs[id].rows, t.jobs[id].rows, WorkerAt(s, w), WorkerAt(t, w), id)
    requires JobMoves(s.jobs[id], t.jobs[id], WorkerAt(s, w), WorkerAt(t, w), id)
    ensures Live(t)
  {
    LocalWorkersLive(s, t, w, id);
    LocalOneHolder(s, t, w, id);
    LocalRowsLive(s, t, w, id);
    LocalJobsLive(s, t, w, id);
  }

  // ---- every fault-free step keeps it ----------------------------------------

  lemma UploadLive(s: State, id: string, now: int)
    requires Live(s) && id !in s.jobs
    ensures Live(Put(s, id, NewJob(now)))
  {
    var t := Put(s, id, NewJob(now));
    assert forall w: nat :: WorkerAt(t, w) == WorkerAt(s, w);
    forall w: nat ensures WorkerLive(t, WorkerAt(t, w)) { assert WorkerLive(s, WorkerAt(s, w)); }
    forall x, k | x in t.jobs && k in t.jobs[x].rows ensures RowLive(t, x, k) {
      assert RowLive(s, x, k);
      if RowHeld(s, x, k) {
        var w: nat :| HoldsRow(WorkerAt(s, w), x, k);
        assert HoldsRow(WorkerAt(t, w), x, k);
      }
    }
    forall x | x in t.jobs ensures JobLive(t, x) {
      if x != id && SomeoneOwes(s, x) {
        var w: nat :| Owes(WorkerAt(s, w), x);
        assert Owes(WorkerAt(t, w), x);
      }
    }
  }

  lemma ClaimIsLive(s: State, w: nat)
    requires Live(s)
    ensures WorkerLive(s, WorkerAt(s, w))
  {}

  lemma RowIsLive(s: State, id: string, k: int)
    requires Live(s) && id in s.jobs && k in s.jobs[id].rows
    ensures RowLive(s, id, k)
  {}

  lemma ClaimDryRunLive(h: Hashes, s: State, w: nat, id: string, now: int)
    requires Inv(h, s) && Live(s)
    ensures Live(Do(h, s, ClaimDryRun(w, id, now)))
  {
    hide Inv, Live;
    ClaimIsLive(s, w);
    var t := Do(h, s, ClaimDryRun(w, id, now));
    if t != s {
      JobFact(h, s, id);
      LocalLive(s, t, w, id);
    }
  }

  lemma StoreFailureLive(h: Hashes, s: State, w: nat, failure: PlanFailure, now: int, backoff: nat)
    requires Inv(h, s) && Live(s)
    ensures Live(Do(h, s, StoreFailure(w, failure, now, backoff)))
  {
    hide Inv, Live;
    ClaimIsLive(s, w);
    var pc := WorkerAt(s, w);
    if pc.Planning? && pc.job in s.jobs {
      JobFact(h, s, pc.job);
      LocalLive(s, Do(h, s, StoreFailure(w, failure, now, backoff)), w, pc.job);
    }
  }

  lemma StorePreviewLive(h: Hashes, s: State, w: nat, planned: seq<PlannedRow>, now: int)
    requires Inv(h, s) && Live(s)
    ensures Live(Do(h, s, StorePreview(w, planned, now)))
  {
    hide Inv, Live;
    ClaimIsLive(s, w);
    JobsFact(h, s);
    var pc, t := WorkerAt(s, w), Do(h, s, StorePreview(w, planned, now));
    if pc.Planning? && pc.job in s.jobs && Planned(planned) {
      assert JobInv(s.jobs[pc.job]);
      if HoldsValidation(s.jobs[pc.job], pc.attempts) && Insertable(planned) {
        SavedJob(h, s.jobs[pc.job], pc.attempts, planned, now);
      }
      LocalLive(s, t, w, pc.job);
    }
  }

  lemma ConfirmLive(h: Hashes, s: State, id: string, actor: string, input: ConfirmInput, now: int, enabled: bool, dup: bool)
    requires Live(s) && id in s.jobs
    ensures Live(ConfirmBy(s, id, actor, input, now, enabled, dup))
  {
    hide Live;
    ClaimIsLive(s, 0);
    LocalLive(s, ConfirmBy(s, id, actor, input, now, enabled, dup), 0, id);
  }

  lemma CancelLive(s: State, id: string, now: int)
    requires Live(s) && id in s.jobs
    ensures Live(Put(s, id, Cancel(s.jobs[id], now)))
  {
    hide Live;
    ClaimIsLive(s, 0);
    var t := Put(s, id, Cancel(s.jobs[id], now));
    StopRowsSteps(s.jobs[id].rows);
    assert forall k :: k in t.jobs[id].rows && t.jobs[id].rows[k].status.RowApplying? ==> s.jobs[id].rows[k] == t.jobs[id].rows[k];
    LocalLive(s, t, 0, id);
  }

  lemma LeaseLive(h: Hashes, s: State, w: nat, id: string, k: int, now: int)
    requires Inv(h, s) && Live(s) && !RowHeld(s, id, k)
    ensures Live(Do(h, s, LeaseNext(w, id, k, now)))
  {
    hide Inv, Live;
    JobsFact(h, s);
    ClaimIsLive(s, w);
    var t := Do(h, s, LeaseNext(w, id, k, now));
    if WorkerAt(s, w).Idle? && id in s.jobs && CanClaimRow(s.jobs[id], k, now) {
      RowIsLive(s, id, k);
      assert RowInv(s.jobs[id], s.jobs[id].rows[k]);
      assert Pending(t.jobs[id].rows[k]);
      LocalLive(s, t, w, id);
    }
  }

  lemma TouchLive(h: Hashes, s: State, w: nat)
    requires Inv(h, s) && Live(s)
    ensures Live(Do(h, s, TouchJob(w)))
  {
    hide Inv, Live;
    JobsFact(h, s);
    ClaimIsLive(s, w);
    var pc, t := WorkerAt(s, w), Do(h, s, TouchJob(w));
    if pc.Leased? {
      HeldOpen(s.jobs[pc.claim.job], pc.claim.rowNo, pc.claim.attempts);
      LocalLive(s, t, w, pc.claim.job);
    }
  }

  lemma KindMissingLive(h: Hashes, s: State, w: nat)
    requires Live(s)
    ensures Live(Do(h, s, KindMissing(w)))
  {
    hide Live;
    ClaimIsLive(s, w);
    if WorkerAt(s, w).Ready? {
      LocalLive(s, Do(h, s, KindMissing(w)), w, WorkerAt(s, w).claim.job);
    }
  }

  lemma CommitLive(h: Hashes, s: State, w: nat, outcome: TxOutcome)
    requires Live(s) && outcome.Committed?
    ensures Live(Do(h, s, ApplyRow(w, outcome)))
  {
    hide Live;
    ClaimIsLive(s, w);
    if WorkerAt(s, w).Ready? {
      LocalLive(s, Do(h, s, ApplyRow(w, outcome)), w, WorkerAt(s, w).claim.job);
    }
  }

  lemma RefusalLive(h: Hashes, s: State, w: nat, outcome: TxOutcome)
    requires Live(s) && outcome.Refused?
    ensures Live(Do(h, s, ApplyRow(w, outcome)))
  {
    hide Live, Commit;
    ClaimIsLive(s, w);
    if WorkerAt(s, w).Ready? {
      LocalLive(s, Do(h, s, ApplyRow(w, outcome)), w, WorkerAt(s, w).claim.job);
    }
  }

  lemma RowResultLive(h: Hashes, s: State, step: Step)
    requires Live(s) && (step.StoreRowFailure? || step.StoreRetry?)
    ensures Live(Do(h, s, step))
  {
    hide Live;
    ClaimIsLive(s, step.w);
    var pc, t := WorkerAt(s, step.w), Do(h, s, step);
    if (step.StoreRowFailure? && pc.Failing?) || (step.StoreRetry? && pc.Retrying?) {
      assert step.StoreRetry? ==> Pending(t.jobs[pc.claim.job].rows[pc.claim.rowNo]);
      LocalLive(s, t, step.w, pc.claim.job);
    }
  }

  lemma CloseLive(h: Hashes, s: State, w: nat, now: int)
    requires Live(s)
    ensures Live(Do(h, s, CloseJob(w, now)))
  {
    hide Live;
    ClaimIsLive(s, w);
    var pc, t := WorkerAt(s, w), Do(h, s, CloseJob(w, now));
    if t != s { LocalLive(s, t, w, pc.job); }
  }

  lemma StopWaitingLive(h: Hashes, s: State, w: nat)
    requires Live(s)
    ensures Live(Do(h, s, StopWaiting(w)))
  {
    hide Live;
    ClaimIsLive(s, w);
    var pc, t := WorkerAt(s, w), Do(h, s, StopWaiting(w));
    if t != s {
      StopRowsSteps(s.jobs[pc.job].rows);
      LocalLive(s, t, w, pc.job);
    }
  }

  lemma MarkStoppedLive(h: Hashes, s: State, w: nat)
    requires Live(s)
    ensures Live(Do(h, s, MarkStopped(w)))
  {
    hide Live;
    ClaimIsLive(s, w);
    var pc, t := WorkerAt(s, w), Do(h, s, MarkStopped(w));
    if t != s { LocalLive(s, t, w, pc.job); }
  }

  lemma StepLive(h: Hashes, s: State, step: Step)
    requires Inv(h, s) && Live(s) && FaultFree(s, step)
    ensures Live(Do(h, s, step))
  {
    hide Inv, Live;
    match step
    case Upload(id, now) => if id !in s.jobs { UploadLive(s, id, now); }
    case ClaimDryRun(w, id, now) => ClaimDryRunLive(h, s, w, id, now);
    case StoreFailure(w, failure, now, backoff) => StoreFailureLive(h, s, w, failure, now, backoff);
    case StorePreview(w, planned, now) => StorePreviewLive(h, s, w, planned, now);
    case UserConfirm(id, actor, input, now, enabled, duplicate) =>
      if id in s.jobs { ConfirmLive(h, s, id, actor, input, now, enabled, duplicate); }
    case UserCancel(id, now) => if id in s.jobs { CancelLive(s, id, now); }
    case LeaseNext(w, id, k, now) => LeaseLive(h, s, w, id, k, now);
    case TouchJob(w) => TouchLive(h, s, w);
    case KindMissing(w) => KindMissingLive(h, s, w);
    case ApplyRow(w, outcome) => if outcome.Committed? { CommitLive(h, s, w, outcome); } else { RefusalLive(h, s, w, outcome); }
    case StoreRowFailure(_) => RowResultLive(h, s, step);
    case StoreRetry(_, _) => RowResultLive(h, s, step);
    case CloseJob(w, now) => CloseLive(h, s, w, now);
    case StopWaiting(w) => StopWaitingLive(h, s, w);
    case MarkStopped(w) => MarkStoppedLive(h, s, w);
    case Crash(_) =>
  }

  lemma {:induction false} RunLive(h: Hashes, s: State, steps: seq<Step>)
    requires Inv(h, s) && Live(s) && FaultFreeRun(h, s, steps)
    ensures Live(Exec(h, s, steps))
    decreases |steps|
  {
    hide Inv, Live;
    if steps != [] {
      StepKeeps(h, s, steps[0]);
      StepLive(h, s, steps[0]);
      RunLive(h, Do(h, s, steps[0]), steps[1..]);
    }
  }

  lemma StartIsLive()
    ensures Live(Start)
  {}

  // ---- the budget ------------------------------------------------------------

  /** Attempts a waiting row may still spend. */
  function Left(): Row -> int { (r: Row) => if Pending(r) then 5 - r.attempts else 0 }

  ghost function Budget(rows: Rows): int { Total(rows, Left()) }

  predicate Claims(s: State, step: Step, id: string) {
    && step.LeaseNext? && step.id == id
    && WorkerAt(s, step.w).Idle? && id in s.jobs && CanClaimRow(s.jobs[id], step.rowNo, step.now)
  }

  ghost function ClaimCount(h: Hashes, s: State, steps: seq<Step>, id: string): nat
    decreases |steps|
  {
    if steps == [] then 0
    else (if Claims(s, steps[0], id) then 1 else 0) + ClaimCount(h, Do(h, s, steps[0]), steps[1..], id)
  }

  ghost predicate WithinBudget(rows: Rows) {
    forall k :: k in rows && Pending(rows[k]) ==> rows[k].attempts <= MAX_APPLY_ATTEMPTS
  }

  lemma LiveRowsWithinBudget(h: Hashes, s: State, id: string)
    requires JobsOk(s) && Live(s) && id in s.jobs
    ensures WithinBudget(s.jobs[id].rows)
  {
    forall k | k in s.jobs[id].rows && Pending(s.jobs[id].rows[k]) ensures s.jobs[id].rows[k].attempts <= MAX_APPLY_ATTEMPTS {
      RowIsLive(s, id, k);
      assert RowInv(s.jobs[id], s.jobs[id].rows[k]);
      if RowHeld(s, id, k) {
        var w: nat :| HoldsRow(WorkerAt(s, w), id, k);
        assert WorkerLive(s, WorkerAt(s, w));
      }
    }
  }

  lemma BudgetNeverGrows(a: Rows, b: Rows)
    requires RowsStep(a, b) && WithinBudget(a)
    ensures Budget(b) <= Budget(a)
  {
    forall k | k in a ensures Left()(b[k]) <= Left()(a[k]) { assert RowStep(a[k], b[k]); }
    TotalMonotone(b, a, Left(), Left());
  }

  lemma BudgetNonNegative(rows: Rows)
    requires WithinBudget(rows)
    ensures 0 <= Budget(rows)
  {
    assert forall k :: k in rows ==> 0 <= Left()(rows[k]);
    TotalNonNegative(rows, Left());
  }

  /** A claim spends exactly one unit. */
  lemma ClaimSpends(h: Hashes, s: State, step: Step, id: string)
    requires JobsOk(s) && Claims(s, step, id)
    ensures id in Do(h, s, step).jobs
    ensures Budget(Do(h, s, step).jobs[id].rows) == Budget(s.jobs[id].rows) - 1
  {
    var rows, k := s.jobs[id].rows, step.rowNo;
    TotalUpdate(rows, k, LeaseRow(rows[k], step.now), Left());
  }

  lemma {:induction false} RunSpends(h: Hashes, s: State, steps: seq<Step>, id: string)
    requires Inv(h, s) && Live(s) && FaultFreeRun(h, s, steps) && id in s.jobs && !Unpreviewed(s.jobs[id])
    ensures id in Exec(h, s, steps).jobs
    ensures ClaimCount(h, s, steps, id) + Budget(Exec(h, s, steps).jobs[id].rows) <= Budget(s.jobs[id].rows)
    decreases |steps|
  {
    hide Inv, Live, Budget;
    if steps != [] {
      var t := Do(h, s, steps[0]);
      StepKeeps(h, s, steps[0]);
      StepLive(h, s, steps[0]);
      RunSpends(h, t, steps[1..], id);
      StepSpends(h, s, steps[0], id);
    }
  }

  lemma StepSpends(h: Hashes, s: State, step: Step, id: string)
    requires Inv(h, s) && Live(s) && FaultFree(s, step) && id in s.jobs && !Unpreviewed(s.jobs[id])
    ensures id in Do(h, s, step).jobs
    ensures (if Claims(s, step, id) then 1 else 0) + Budget(Do(h, s, step).jobs[id].rows) <= Budget(s.jobs[id].rows)
  {
    hide Inv, Live, Budget;
    JobsFact(h, s);
    StepKeeps(h, s, step);
    LiveRowsWithinBudget(h, s, id);
    if Claims(s, step, id) {
      ClaimSpends(h, s, step, id);
    } else {
      BudgetNeverGrows(s.jobs[id].rows, Do(h, s, step).jobs[id].rows);
    }
  }

  /** Before confirm, the budget is five attempts for each valid row. */
  lemma PreviewBudget(j: Job)
    requires JobInv(j) && j.status.PreviewReady?
    ensures Budget(j.rows) == 5 * Count(j.rows, RowValid)
  {
    forall k | k in j.rows ensures Left()(j.rows[k]) == 5 * Has(RowValid)(j.rows[k]) {
      assert RowInv(j, j.rows[k]);
    }
    TotalScale(j.rows, Has(RowValid), Left(), 5);
  }

  /**
    A job previewed with n valid rows is claimed at most 5n times in its whole
    life, in any fault-free run.
  */
  lemma ClaimsAreBounded(h: Hashes, before: seq<Step>, after: seq<Step>, id: string)
    requires FaultFreeRun(h, Start, before) && FaultFreeRun(h, Exec(h, Start, before), after)
    requires id in Exec(h, Start, before).jobs && Exec(h, Start, before).jobs[id].status.PreviewReady?
    ensures ClaimCount(h, Exec(h, Start, before), after, id)
         <= 5 * Count(Exec(h, Start, before).jobs[id].rows, RowValid)
  {
    hide Inv, Live, Budget;
    var s := Exec(h, Start, before);
    EveryRun(h, before);
    StartIsLive();
    StartIsSafe(h);
    RunLive(h, Start, before);
    RunSpends(h, s, after, id);
    JobsFact(h, s);
    PreviewBudget(s.jobs[id]);
    RunKeeps(h, s, after);
    RunLive(h, s, after);
    JobsFact(h, Exec(h, s, after));
    LiveRowsWithinBudget(h, Exec(h, s, after), id);
    BudgetNonNegative(Exec(h, s, after).jobs[id].rows);
  }

  lemma IdleOpenJobWaits(s: State, id: string)
    requires JobsLive(s) && id in s.jobs && Running(s.jobs[id])
    requires forall w: nat :: WorkerAt(s, w).Idle?
    ensures HasPending(s.jobs[id].rows)
  {
    assert JobLive(s, id);
  }

  lemma IdleRowHasAttemptsLeft(s: State, id: string, k: int)
    requires RowsLive(s) && id in s.jobs && k in s.jobs[id].rows && RowInv(s.jobs[id], s.jobs[id].rows[k]) && Pending(s.jobs[id].rows[k])
    requires forall w: nat :: WorkerAt(s, w).Idle?
    ensures s.jobs[id].rows[k].attempts < MAX_APPLY_ATTEMPTS
  {
    assert RowLive(s, id, k);
  }

  lemma FaultFreeReaches(h: Hashes, steps: seq<Step>)
    requires FaultFreeRun(h, Start, steps)
    ensures JobsOk(Exec(h, Start, steps)) && Live(Exec(h, Start, steps))
  {
    hide Inv, Live;
    EveryRun(h, steps);
    StartIsLive();
    StartIsSafe(h);
    RunLive(h, Start, steps);
    JobsFact(h, Exec(h, Start, steps));
  }

  lemma PendingRowIsClaimable(j: Job, k: int) returns (t: int)
    requires JobInv(j) && Running(j) && k in j.rows && Pending(j.rows[k])
    ensures forall now :: now >= t ==> CanClaimRow(j, k, now)
  {
    assert RowInv(j, j.rows[k]);
    t := if j.rows[k].leaseUntil.Some? then j.rows[k].leaseUntil.value + 1 else 0;
  }

  /**
    No confirmed job is stuck: when every worker is idle, a job that is still
    open has a row any applier can claim once its lease has passed.
  */
  lemma IdleJobsAreClaimable(h: Hashes, steps: seq<Step>, id: string) returns (k: int, t: int)
    requires FaultFreeRun(h, Start, steps) && id in Exec(h, Start, steps).jobs && Running(Exec(h, Start, steps).jobs[id])
    requires forall w: nat :: WorkerAt(Exec(h, Start, steps), w).Idle?
    ensures forall now :: now >= t ==> CanClaimRow(Exec(h, Start, steps).jobs[id], k, now)
  {
    var s := Exec(h, Start, steps);
    FaultFreeReaches(h, steps);
    IdleOpenJobWaits(s, id);
    k :| k in s.jobs[id].rows && Pending(s.jobs[id].rows[k]);
    t := PendingRowIsClaimable(s.jobs[id], k);
  }

  lemma PendingRowHasBudget(rows: Rows, k: int)
    requires WithinBudget(rows) && k in rows && Pending(rows[k]) && rows[k].attempts < MAX_APPLY_ATTEMPTS
    ensures 0 < Budget(rows)
  {
    TotalSplit(rows, k, Left());
    assert forall x :: x in rows - {k} ==> 0 <= Left()((rows - {k})[x]);
    TotalNonNegative(rows - {k}, Left());
  }

  /** Hence a confirmed job whose budget is spent is finished once the workers are idle. */
  lemma SpentJobsAreFinished(h: Hashes, steps: seq<Step>, id: string)
    requires FaultFreeRun(h, Start, steps) && id in Exec(h, Start, steps).jobs
    requires Exec(h, Start, steps).jobs[id].confirmedBy.Some?
    requires forall w: nat :: WorkerAt(Exec(h, Start, steps), w).Idle?
    requires Budget(Exec(h, Start, steps).jobs[id].rows) <= 0
    ensures Terminal(Exec(h, Start, steps).jobs[id])
  {
    var s := Exec(h, Start, steps);
    FaultFreeReaches(h, steps);
    var j := s.jobs[id];
    if Running(j) {
      IdleOpenJobWaits(s, id);
      var k :| k in j.rows && Pending(j.rows[k]);
      LiveRowsWithinBudget(h, s, id);
      IdleRowHasAttemptsLeft(s, id, k);
      PendingRowHasBudget(j.rows, k);
    }
  }

  lemma {:induction false} FaultFreeCompose(h: Hashes, s: State, a: seq<Step>, b: seq<Step>)
    requires FaultFreeRun(h, s, a) && FaultFreeRun(h, Exec(h, s, a), b)
    ensures FaultFreeRun(h, s, a + b)
    decreases |a|
  {
    hide Do, FaultFree;
    if a == [] {
      assert a + b == b;
    } else {
      assert (a + b)[0] == a[0] && (a + b)[1..] == a[1..] + b;
      FaultFreeCompose(h, Do(h, s, a[0]), a[1..], b);
    }
  }

  /**
    End to end: in fault-free runs, a job previewed with n valid rows that was
    confirmed and claimed 5n times is completed or cancelled as soon as the
    workers are idle.
  */
  lemma ClaimedOutJobsFinish(h: Hashes, before: seq<Step>, after: seq<Step>, id: string)
    requires FaultFreeRun(h, Start, before) && FaultFreeRun(h, Exec(h, Start, before), after)
    requires id in Exec(h, Start, before).jobs && Exec(h, Start, before).jobs[id].status.PreviewReady?
    requires ClaimCount(h, Exec(h, Start, before), after, id)
          >= 5 * Count(Exec(h, Start, before).jobs[id].rows, RowValid)
    requires forall w: nat :: WorkerAt(Exec(h, Exec(h, Start, before), after), w).Idle?
    requires var t := Exec(h, Exec(h, Start, before), after); id in t.jobs && t.jobs[id].confirmedBy.Some?
    ensures Terminal(Exec(h, Exec(h, Start, before), after).jobs[id])
  {
    hide Inv, Live, Budget, Exec, FaultFreeRun, ClaimCount;
    var s := Exec(h, Start, before);
    EveryRun(h, before);
    StartIsLive();
    StartIsSafe(h);
    RunLive(h, Start, before);
    RunSpends(h, s, after, id);
    JobsFact(h, s);
    PreviewBudget(s.jobs[id]);
    ExecCompose(h, Start, before, after);
    FaultFreeCompose(h, Start, before, after);
    SpentJobsAreFinished(h, before + after, id);
  }
}
