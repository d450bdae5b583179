/**
  The import engine as a protocol: any number of validators, row appliers and
  users, any interleaving of their database statements, and crashes, expired
  leases and lost commit answers at any point. One step is one SQL statement
  or one transaction. A step that is not enabled changes nothing, so every
  sequence of steps is a run.
*/
module ImportProtocol {
  import opened Options
  import opened ImportModel
  import PreviewHash

  datatype Claim = Claim(job: string, rowNo: int, attempts: nat, plan: RowPlan)

  /** Where a worker stands between two of its statements. */
  datatype Worker =
    | Idle
    | Planning(job: string, attempts: nat)              // dry-run claimed
    | Leased(claim: Claim)                              // row leased, job not touched yet
    | Ready(claim: Claim, actor: string)                // row claimed
    | Failing(claim: Claim, stop: bool)                 // owes the failed row result
    | Retrying(claim: Claim)                            // owes the backoff lease
    | Finalizing(job: string, stop: bool)               // owes FinalizeJob
    | Stopping(job: string)                             // owes the cancellation of waiting rows
    | StopMarking(job: string)                          // owes the job's error code

  /** A committed Apply, and whether the owner answered that the row needs approval. */
  datatype Effect = Effect(job: string, rowNo: int, actor: string, plan: RowPlan, approval: bool)

  datatype Confirmation = Confirmation(job: string, actor: string, hash: string)

  /**
    The database, the workers, and what an observer records: the committed
    Apply effects, the saved previews and the accepted confirmations.
  */
  datatype State = State(
    jobs: map<string, Job>, workers: map<nat, Worker>,
    effects: seq<Effect>, previews: map<string, seq<PlannedRow>>, confirmations: seq<Confirmation>)

  datatype ApplyError = Forbidden | Rejected | Transient

  /** How the apply transaction ended, and what the applier was told. */
  datatype TxOutcome = Committed(needsApproval: bool) | AnswerLost(needsApproval: bool) | Refused(error: ApplyError)

  datatype Step =
    | Upload(id: string, now: int)
    | ClaimDryRun(w: nat, id: string, now: int)
    | StorePreview(w: nat, planned: seq<PlannedRow>, now: int)
    | StoreFailure(w: nat, failure: PlanFailure, now: int, backoff: nat)
    | UserConfirm(id: string, actor: string, input: ConfirmInput, now: int, enabled: bool, duplicate: bool)
    | UserCancel(id: string, now: int)
    | LeaseNext(w: nat, id: string, rowNo: int, now: int)
    | TouchJob(w: nat)
    | KindMissing(w: nat)
    | ApplyRow(w: nat, outcome: TxOutcome)
    | StoreRowFailure(w: nat)
    | StoreRetry(w: nat, until: int)
    | CloseJob(w: nat, now: int)
    | StopWaiting(w: nat)
    | MarkStopped(w: nat)
    | Crash(w: nat)

  const Start := State(map[], map[], [], map[], [])

  function WorkerAt(s: State, w: nat): Worker { if w in s.workers then s.workers[w] else Idle }

  function Put(s: State, id: string, j: Job): State { s.(jobs := s.jobs[id := j]) }

  function Go(s: State, w: nat, pc: Worker): State { s.(workers := s.workers[w := pc]) }

  /** A dry-run plans rows as invalid, unchanged or valid only. */
  predicate Planned(planned: seq<PlannedRow>) {
    forall i :: 0 <= i < |planned| ==>
      planned[i].status.RowInvalid? || planned[i].status.RowUnchanged? || planned[i].status.RowValid?
  }

  function Do(h: Hashes, s: State, step: Step): State {
    match step
    case Upload(id, now) =>
      if id in s.jobs then s else Put(s, id, NewJob(now))
    case ClaimDryRun(w, id, now) =>
      if !WorkerAt(s, w).Idle? || id !in s.jobs || !CanClaimValidation(s.jobs[id], now) then s
      else
        var j := ClaimValidation(s.jobs[id], now);
        Go(Put(s, id, j), w, Planning(id, j.attempts))
    case StorePreview(w, planned, now) =>
      var pc := WorkerAt(s, w);
      if !pc.Planning? || pc.job !in s.jobs || !Planned(planned) then s
      else StorePreviewBy(h, Go(s, w, Idle), pc.job, pc.attempts, planned, now)
    case StoreFailure(w, failure, now, backoff) =>
      var pc := WorkerAt(s, w);
      if !pc.Planning? || pc.job !in s.jobs then s
      else Put(Go(s, w, Idle), pc.job, FailValidation(s.jobs[pc.job], pc.attempts, failure, now, backoff))
    case UserConfirm(id, actor, input, now, enabled, duplicate) =>
      if id !in s.jobs then s
      else ConfirmBy(s, id, actor, input, now, enabled, duplicate)
    case UserCancel(id, now) =>
      if id !in s.jobs then s else Put(s, id, Cancel(s.jobs[id], now))
    case LeaseNext(w, id, k, now) =>
      if !WorkerAt(s, w).Idle? || id !in s.jobs || !CanClaimRow(s.jobs[id], k, now) then s
      else
        var r := LeaseRow(s.jobs[id].rows[k], now);
        Go(PutRows(s, id, s.jobs[id].rows[k := r]), w, Leased(Claim(id, k, r.attempts, r.plan)))
    case TouchJob(w) =>
      var pc := WorkerAt(s, w);
      if !pc.Leased? || pc.claim.job !in s.jobs then s
      else
        var j := MarkApplying(s.jobs[pc.claim.job]);
        Go(Put(s, pc.claim.job, j), w, if j.confirmedBy.Some? then Ready(pc.claim, j.confirmedBy.value) else Idle)
    case KindMissing(w) =>
      var pc := WorkerAt(s, w);
      if !pc.Ready? then s else Go(s, w, Failing(pc.claim, false))
    case ApplyRow(w, outcome) =>
      var pc := WorkerAt(s, w);
      if !pc.Ready? || pc.claim.job !in s.jobs then s else ApplyBy(s, w, pc.claim, pc.actor, outcome)
    case StoreRowFailure(w) =>
      var pc := WorkerAt(s, w);
      if !pc.Failing? || pc.claim.job !in s.jobs then s
      else
        Go(PutRows(s, pc.claim.job, FinishRow(s.jobs[pc.claim.job].rows, pc.claim.rowNo, pc.claim.attempts, RowFailed)),
           w, Finalizing(pc.claim.job, pc.stop))
    case StoreRetry(w, until) =>
      var pc := WorkerAt(s, w);
      if !pc.Retrying? || pc.claim.job !in s.jobs then s
      else
        Go(PutRows(s, pc.claim.job, RetryRow(s.jobs[pc.claim.job].rows, pc.claim.rowNo, pc.claim.attempts, until)), w, Idle)
    case CloseJob(w, now) =>
      var pc := WorkerAt(s, w);
      if !pc.Finalizing? || pc.job !in s.jobs then s
      else Go(Put(s, pc.job, FinalizeJob(s.jobs[pc.job], now)), w, if pc.stop then Stopping(pc.job) else Idle)
    case StopWaiting(w) =>
      var pc := WorkerAt(s, w);
      if !pc.Stopping? || pc.job !in s.jobs then s
      else Go(PutRows(s, pc.job, StopRows(s.jobs[pc.job].rows)), w, StopMarking(pc.job))
    case MarkStopped(w) =>
      var pc := WorkerAt(s, w);
      if !pc.StopMarking? || pc.job !in s.jobs then s
      else Go(Put(s, pc.job, StopJob(s.jobs[pc.job], "permission_revoked")), w, Finalizing(pc.job, false))
    case Crash(w) => Go(s, w, Idle)
  }

  function PutRows(s: State, id: string, rows: Rows): State
    requires id in s.jobs
  {
    Put(s, id, s.jobs[id].(rows := rows))
  }

  function StorePreviewBy(h: Hashes, s: State, id: string, attempts: nat, planned: seq<PlannedRow>, now: int): State
    requires id in s.jobs
  {
    var j := s.jobs[id];
    var saved := SavePreview(j, attempts, planned, PreviewHash.Of(h, planned), now);
    if HoldsValidation(j, attempts) && Insertable(planned) then Put(s, id, saved).(previews := s.previews[id := planned])
    else s
  }

  function ConfirmBy(s: State, id: string, actor: string, input: ConfirmInput, now: int, enabled: bool, duplicate: bool): State
    requires id in s.jobs
  {
    match Confirm(s.jobs[id], actor, input, now, enabled, duplicate)
    case Err(_) => s
    case Ok(j) =>
      if IsReplay(s.jobs[id], actor, input) then s
      else Put(s, id, j).(confirmations := s.confirmations + [Confirmation(id, actor, input.previewHash)])
  }

  /**
    The apply transaction: the lease check, the owner's Apply and the row
    result commit together or not at all. A commit whose answer is lost looks
    like a transient failure to the applier.
  */
  function ApplyBy(s: State, w: nat, c: Claim, actor: string, outcome: TxOutcome): State
    requires c.job in s.jobs
  {
    var rows := s.jobs[c.job].rows;
    if outcome == Refused(Transient) then Go(s, w, AfterTransient(c))
    else if !HoldsLease(rows, c.rowNo, c.attempts) then Go(s, w, Idle)
    else
      match outcome
      case Refused(e) => Go(s, w, Failing(c, e.Forbidden?))
      case Committed(approval) => Go(Commit(s, c, actor, approval), w, Finalizing(c.job, false))
      case AnswerLost(approval) => Go(Commit(s, c, actor, approval), w, AfterTransient(c))
  }

  function AfterTransient(c: Claim): Worker {
    if c.attempts >= MAX_APPLY_ATTEMPTS then Failing(c, false) else Retrying(c)
  }

  function Commit(s: State, c: Claim, actor: string, approval: bool): State
    requires c.job in s.jobs
  {
    var status := if approval then RowNeedsApproval else RowSucceeded;
    PutRows(s, c.job, FinishRow(s.jobs[c.job].rows, c.rowNo, c.attempts, status))
    .(effects := s.effects + [Effect(c.job, c.rowNo, actor, c.plan, approval)])
  }

  function Exec(h: Hashes, s: State, steps: seq<Step>): State
    decreases |steps|
  {
    if steps == [] then s else Exec(h, Do(h, s, steps[0]), steps[1..])
  }

  lemma {:induction false} ExecCompose(h: Hashes, s: State, a: seq<Step>, b: seq<Step>)
    ensures Exec(h, s, a + b) == Exec(h, Exec(h, s, a), b)
    decreases |a|
  {
    if a == [] {
      assert a + b == b;
    } else {
      assert (a + b)[1..] == a[1..] + b;
      ExecCompose(h, Do(h, s, a[0]), a[1..], b);
    }
  }
}
