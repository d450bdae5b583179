/**
  The two worker steps of the import as runs of the protocol, and what one
  application of a row leaves.
*/
module ImportApply {
  import opened Options
  import opened ImportModel
  import opened ImportProtocol

  // ---- the runs of the two workers -------------------------------------------------

  /** Both statements of one dry-run. */
  function ValidateRun(w: nat, id: string, plan: Result<seq<PlannedRow>, PlanFailure>, now: int, backoff: nat): seq<Step> {
    [ClaimDryRun(w, id, now), match plan case Ok(planned) => StorePreview(w, planned, now) case Err(f) => StoreFailure(w, f, now, backoff)]
  }

  /**
    All statements of one application, in the order of the code. Those a
    worker is not at do nothing, so one list covers every way it can end.
  */
  function ApplyRun(w: nat, id: string, k: int, kindKnown: bool, outcome: TxOutcome, now: int, until: int): seq<Step> {
    [LeaseNext(w, id, k, now), TouchJob(w), if kindKnown then ApplyRow(w, outcome) else KindMissing(w)] + Settling(w, now, until)
  }

  function Settling(w: nat, now: int, until: int): seq<Step> {
    [StoreRowFailure(w), CloseJob(w, now), StopWaiting(w), MarkStopped(w), CloseJob(w, now), StoreRetry(w, until)]
  }

  function SettledBy(h: Hashes, s: State, w: nat, now: int, until: int): State {
    var failed := Do(h, Do(h, s, StoreRowFailure(w)), CloseJob(w, now));
    var stopped := Do(h, Do(h, failed, StopWaiting(w)), MarkStopped(w));
    Do(h, Do(h, stopped, CloseJob(w, now)), StoreRetry(w, until))
  }

  lemma IdleWorkerRests(h: Hashes, s: State, w: nat, now: int, until: int)
    requires WorkerAt(s, w).Idle?
    ensures Do(h, s, StoreRowFailure(w)) == s && Do(h, s, CloseJob(w, now)) == s && Do(h, s, StopWaiting(w)) == s
    ensures Do(h, s, MarkStopped(w)) == s && Do(h, s, StoreRetry(w, until)) == s
  {}

  lemma IdleWorkerIsSettled(h: Hashes, s: State, w: nat, now: int, until: int)
    requires WorkerAt(s, w).Idle?
    ensures SettledBy(h, s, w, now, until) == s
  {
    hide Do;
    IdleWorkerRests(h, s, w, now, until);
  }

  /** A worker that closes or postpones has no failure to store and nothing to stop. */
  lemma OtherStepsRest(h: Hashes, s: State, w: nat, now: int, until: int)
    ensures WorkerAt(s, w).Finalizing? || WorkerAt(s, w).Retrying? ==> Do(h, s, StoreRowFailure(w)) == s
    ensures WorkerAt(s, w).Retrying? ==> Do(h, s, CloseJob(w, now)) == s && Do(h, s, StopWaiting(w)) == s && Do(h, s, MarkStopped(w)) == s
  {}

  lemma NotReadyRests(h: Hashes, s: State, w: nat, outcome: TxOutcome)
    requires WorkerAt(s, w).Idle?
    ensures Do(h, s, ApplyRow(w, outcome)) == s && Do(h, s, KindMissing(w)) == s
  {}

  lemma MissingKindFails(h: Hashes, s: State, w: nat, c: Claim, actor: string)
    requires WorkerAt(s, w) == Ready(c, actor)
    ensures Do(h, s, KindMissing(w)) == Go(s, w, Failing(c, false))
  {}

  lemma ApplyRunIs(h: Hashes, s: State, w: nat, id: string, k: int, kindKnown: bool, outcome: TxOutcome, now: int, until: int)
    ensures Exec(h, s, ApplyRun(w, id, k, kindKnown, outcome, now, until))
         == SettledBy(h, Do(h, Do(h, Do(h, s, LeaseNext(w, id, k, now)), TouchJob(w)), if kindKnown then ApplyRow(w, outcome) else KindMissing(w)),
                      w, now, until)
  {
    hide Do;
    var head := [LeaseNext(w, id, k, now), TouchJob(w), if kindKnown then ApplyRow(w, outcome) else KindMissing(w)];
    ExecCompose(h, s, head, Settling(w, now, until));
    ThreeSteps(h, s, head[0], head[1], head[2]);
    var t := Exec(h, s, head);
    var rest := Settling(w, now, until);
    ExecCompose(h, t, rest[..3], rest[3..]);
    assert rest == rest[..3] + rest[3..];
    assert rest[..3] == [rest[0], rest[1], rest[2]] && rest[3..] == [rest[3], rest[4], rest[5]];
    ThreeSteps(h, t, rest[0], rest[1], rest[2]);
    ThreeSteps(h, Exec(h, t, rest[..3]), rest[3], rest[4], rest[5]);
  }

  lemma ThreeSteps(h: Hashes, s: State, a: Step, b: Step, c: Step)
    ensures Exec(h, s, [a, b, c]) == Do(h, Do(h, Do(h, s, a), b), c)
  {
    hide Do;
    assert [a, b, c][1..] == [b, c] && [b, c][1..] == [c] && [c][1..] == [];
    assert Exec(h, Do(h, Do(h, s, a), b), [c]) == Do(h, Do(h, Do(h, s, a), b), c);
  }

  lemma TwoSteps(h: Hashes, s: State, a: Step, b: Step)
    ensures Exec(h, s, [a, b]) == Do(h, Do(h, s, a), b)
  {
    assert [a, b][1..] == [b];
    assert Exec(h, Do(h, s, a), [b]) == Do(h, Do(h, s, a), b);
  }

  // ---- one row, applied ------------------------------------------------------------

  /** The statuses the row ends with: its claim counted, its result as the owner answered. */
  ghost predicate RowEnds(r: Row, q: Row, kindKnown: bool, outcome: TxOutcome, until: int) {
    && q.plan == r.plan && q.attempts == r.attempts + 1
    && (if kindKnown && outcome == Refused(Transient) && r.attempts + 1 < 5
        then q.status == RowApplying && q.leaseUntil == Some(until)
        else q.leaseUntil.None?)
    && (!kindKnown ==> q.status == RowFailed)
    && (kindKnown && (outcome == Committed(true) || outcome == AnswerLost(true)) ==> q.status == RowNeedsApproval)
    && (kindKnown && (outcome == Committed(false) || outcome == AnswerLost(false)) ==> q.status == RowSucceeded)
    && (kindKnown && (outcome == Refused(Rejected) || outcome == Refused(Forbidden)) ==> q.status == RowFailed)
    && (kindKnown && outcome == Refused(Transient) && r.attempts + 1 >= 5 ==> q.status == RowFailed)
  }

  /** A revoked permission cancels the rows still waiting; nothing else touches the other rows. */
  ghost predicate OtherRowsEnd(a: Rows, b: Rows, k: int, stopped: bool) {
    && b.Keys == a.Keys
    && forall x :: x in a && x != k ==> b[x] == if stopped && a[x].status == RowValid then a[x].(status := RowCancelled) else a[x]
  }

  /** Nothing is left to apply. */
  ghost predicate NothingLeft(rows: Rows) { forall k :: k in rows ==> rows[k].status != RowValid && rows[k].status != RowApplying }

  /** The applier closes the job, unless it only postponed the row: also after a lost answer before the fifth attempt. */
  ghost predicate JobEnds(a: Job, b: Job, postponed: bool, stopped: bool, now: int) {
    var open := if a.status == Confirmed then Applying else a.status;
    var closes := !postponed && open in {Applying, Cancelling} && NothingLeft(b.rows);
    && b.status == (if !closes then open else if open == Cancelling then Cancelled else Completed)
    && b.finishedAt == (if closes then Some(now) else a.finishedAt)
    && b.errorCode == (if stopped then "permission_revoked" else a.errorCode)
    && b.version == a.version + (if closes then 1 else 0) + (if stopped then 1 else 0)
    && b.confirmedBy == a.confirmedBy && b.previewHash == a.previewHash && b.previewAt == a.previewAt && b.attempts == a.attempts
  }

  /** Whether the applier ends by postponing its row. */
  predicate Postpones(attempts: nat, kindKnown: bool, outcome: TxOutcome) {
    kindKnown && attempts + 1 < 5 && (outcome == Refused(Transient) || outcome.AnswerLost?)
  }

  /** The claimed job and row after one application. */
  ghost predicate AppliedAs(a: Job, b: Job, k: int, kindKnown: bool, outcome: TxOutcome, now: int, until: int)
    requires k in a.rows
  {
    var stopped := kindKnown && outcome == Refused(Forbidden);
    var postponed := Postpones(a.rows[k].attempts, kindKnown, outcome);
    && k in b.rows && RowEnds(a.rows[k], b.rows[k], kindKnown, outcome, until)
    && OtherRowsEnd(a.rows, b.rows, k, stopped)
    && JobEnds(a, b, postponed, stopped, now)
  }

  /** The job that the statements after the transaction leave. */
  function SettledJob(j: Job, pc: Worker, now: int, until: int): Job {
    match pc
    case Failing(c, stop) =>
      var closed := FinalizeJob(j.(rows := FinishRow(j.rows, c.rowNo, c.attempts, RowFailed)), now);
      if stop then FinalizeJob(StopJob(closed.(rows := StopRows(closed.rows)), "permission_revoked"), now) else closed
    case Finalizing(_, _) => FinalizeJob(j, now)
    case Retrying(c) => j.(rows := RetryRow(j.rows, c.rowNo, c.attempts, until))
    case _ => j
  }

  lemma FailingSettles(h: Hashes, s: State, w: nat, now: int)
    requires WorkerAt(s, w).Failing? && WorkerAt(s, w).claim.job in s.jobs
    ensures var c := WorkerAt(s, w).claim;
            var t := Do(h, Do(h, s, StoreRowFailure(w)), CloseJob(w, now));
            && t.jobs == s.jobs[c.job := FinalizeJob(s.jobs[c.job].(rows := FinishRow(s.jobs[c.job].rows, c.rowNo, c.attempts, RowFailed)), now)]
            && WorkerAt(t, w) == (if WorkerAt(s, w).stop then Stopping(c.job) else Idle)
            && t.effects == s.effects && t.previews == s.previews && t.confirmations == s.confirmations
  {
    hide FinalizeJob, FinishRow;
  }

  lemma StoppingSettles(h: Hashes, s: State, w: nat, now: int)
    requires WorkerAt(s, w).Stopping? && WorkerAt(s, w).job in s.jobs
    ensures var id := WorkerAt(s, w).job;
            var t := Do(h, Do(h, Do(h, s, StopWaiting(w)), MarkStopped(w)), CloseJob(w, now));
            && t.jobs == s.jobs[id := FinalizeJob(StopJob(s.jobs[id].(rows := StopRows(s.jobs[id].rows)), "permission_revoked"), now)]
            && WorkerAt(t, w).Idle?
            && t.effects == s.effects && t.previews == s.previews && t.confirmations == s.confirmations
  {
    hide FinalizeJob, StopRows;
  }

  lemma OthersSettle(h: Hashes, s: State, w: nat, now: int, until: int)
    ensures WorkerAt(s, w).Finalizing? && WorkerAt(s, w).job in s.jobs ==>
              var t := Do(h, s, CloseJob(w, now));
              && t.jobs == s.jobs[WorkerAt(s, w).job := FinalizeJob(s.jobs[WorkerAt(s, w).job], now)]
              && WorkerAt(t, w) == (if WorkerAt(s, w).stop then Stopping(WorkerAt(s, w).job) else Idle)
              && t.effects == s.effects && t.previews == s.previews && t.confirmations == s.confirmations
    ensures WorkerAt(s, w).Retrying? && WorkerAt(s, w).claim.job in s.jobs ==>
              var c := WorkerAt(s, w).claim;
              var t := Do(h, s, StoreRetry(w, until));
              && t.jobs == s.jobs[c.job := s.jobs[c.job].(rows := RetryRow(s.jobs[c.job].rows, c.rowNo, c.attempts, until))]
              && t.effects == s.effects && t.previews == s.previews && t.confirmations == s.confirmations
  {
    hide FinalizeJob, RetryRow;
  }

  lemma SettledIs(h: Hashes, s: State, w: nat, id: string, now: int, until: int)
    requires id in s.jobs
    requires match WorkerAt(s, w)
             case Failing(c, _) => c.job == id
             case Finalizing(x, stop) => x == id && !stop
             case Retrying(c) => c.job == id
             case _ => false
    ensures var t := SettledBy(h, s, w, now, until);
            && t.jobs == s.jobs[id := SettledJob(s.jobs[id], WorkerAt(s, w), now, until)] && t.effects == s.effects
            && t.previews == s.previews && t.confirmations == s.confirmations
  {
    hide Do, FinalizeJob, StopRows, FinishRow, RetryRow, StopJob;
    match WorkerAt(s, w)
    case Failing(c, stop) =>
      FailingSettles(h, s, w, now);
      var closed := Do(h, Do(h, s, StoreRowFailure(w)), CloseJob(w, now));
      if stop {
        StoppingSettles(h, closed, w, now);
        IdleWorkerRests(h, Do(h, Do(h, Do(h, closed, StopWaiting(w)), MarkStopped(w)), CloseJob(w, now)), w, now, until);
      } else {
        IdleWorkerRests(h, closed, w, now, until);
      }
    case Finalizing(_, _) =>
      OtherStepsRest(h, s, w, now, until);
      OthersSettle(h, s, w, now, until);
      IdleWorkerRests(h, Do(h, s, CloseJob(w, now)), w, now, until);
    case Retrying(_) =>
      OtherStepsRest(h, s, w, now, until);
      OthersSettle(h, s, w, now, until);
  }

  /** The claim: the row is leased and a confirmed job opened. */
  lemma ClaimedIs(h: Hashes, s: State, w: nat, id: string, k: int, now: int, actor: string)
    requires WorkerAt(s, w).Idle? && id in s.jobs && CanClaimRow(s.jobs[id], k, now) && s.jobs[id].confirmedBy == Some(actor)
    ensures var t := Do(h, Do(h, s, LeaseNext(w, id, k, now)), TouchJob(w));
            var j, r := s.jobs[id], s.jobs[id].rows[k];
            && WorkerAt(t, w) == Ready(Claim(id, k, r.attempts + 1, r.plan), actor)
            && t.jobs == s.jobs[id := MarkApplying(j.(rows := j.rows[k := LeaseRow(r, now)]))]
            && t.effects == s.effects && t.previews == s.previews && t.confirmations == s.confirmations
  {
    var t := Do(h, Do(h, s, LeaseNext(w, id, k, now)), TouchJob(w));
    var j, r := s.jobs[id], s.jobs[id].rows[k];
    assert t.jobs == s.jobs[id := MarkApplying(j.(rows := j.rows[k := LeaseRow(r, now)]))];
  }

  function TriedWorker(c: Claim, kindKnown: bool, outcome: TxOutcome): Worker {
    if !kindKnown then Failing(c, false)
    else
      match outcome
      case Committed(_) => Finalizing(c.job, false)
      case AnswerLost(_) => AfterTransient(c)
      case Refused(e) => if e.Transient? then AfterTransient(c) else Failing(c, e.Forbidden?)
  }

  function TriedJob(j: Job, c: Claim, kindKnown: bool, outcome: TxOutcome): Job {
    if !kindKnown || outcome.Refused? then j
    else j.(rows := FinishRow(j.rows, c.rowNo, c.attempts, if outcome.needsApproval then RowNeedsApproval else RowSucceeded))
  }

  lemma TriedIs(h: Hashes, s: State, w: nat, c: Claim, actor: string, kindKnown: bool, outcome: TxOutcome)
    requires WorkerAt(s, w) == Ready(c, actor) && c.job in s.jobs && HoldsLease(s.jobs[c.job].rows, c.rowNo, c.attempts)
    ensures var t := Do(h, s, if kindKnown then ApplyRow(w, outcome) else KindMissing(w));
            && WorkerAt(t, w) == TriedWorker(c, kindKnown, outcome)
            && t.jobs == s.jobs[c.job := TriedJob(s.jobs[c.job], c, kindKnown, outcome)]
            && t.effects == s.effects + (if kindKnown && !outcome.Refused? then [Effect(c.job, c.rowNo, actor, c.plan, outcome.needsApproval)] else [])
            && t.previews == s.previews && t.confirmations == s.confirmations
  {
    hide FinishRow;
  }

  /** A job with nothing left to apply is closed, under the status it was heading for. */
  lemma ClosingMeans(j: Job, now: int)
    ensures var b := FinalizeJob(j, now);
            var closes := j.status in {Confirmed, Applying, Cancelling} && NothingLeft(j.rows);
            && b.status == (if !closes then j.status else if j.status == Cancelling then Cancelled else Completed)
            && b.finishedAt == (if closes then Some(now) else j.finishedAt)
            && b == j.(status := b.status, finishedAt := b.finishedAt, version := j.version + if closes then 1 else 0)
  {}

  lemma StoppingMeans(j: Job, k: int, now: int)
    requires k in j.rows && j.rows[k].status == RowFailed
    ensures var closed := FinalizeJob(j, now);
            var b := FinalizeJob(StopJob(closed.(rows := StopRows(closed.rows)), "permission_revoked"), now);
            var closes := j.status in {Confirmed, Applying, Cancelling} && NothingLeft(b.rows);
            && b.rows[k] == j.rows[k] && OtherRowsEnd(j.rows, b.rows, k, true)
            && b.status == (if !closes then j.status else if j.status == Cancelling then Cancelled else Completed)
            && b.finishedAt == (if closes then Some(now) else j.finishedAt)
            && b == j.(rows := b.rows, status := b.status, finishedAt := b.finishedAt, version := j.version + (if closes then 2 else 1),
                       errorCode := "permission_revoked")
  {
    hide FinalizeJob;
    var closed := FinalizeJob(j, now);
    ClosingMeans(j, now);
    assert closed.rows == j.rows;
    if NothingLeft(j.rows) {
      forall x | x in j.rows ensures StopRows(j.rows)[x] == j.rows[x] { assert j.rows[x].status != RowValid; }
      assert StopRows(j.rows) == j.rows;
    }
    ClosingMeans(StopJob(closed.(rows := StopRows(closed.rows)), "permission_revoked"), now);
  }

  /** The claimed job once its row has the given status and its claim was counted. */
  lemma RowIsWritten(j: Job, id: string, k: int, now: int, kindKnown: bool, outcome: TxOutcome, until: int)
    requires CanClaimRow(j, k, now)
    ensures var r := j.rows[k];
            var c := Claim(id, k, r.attempts + 1, r.plan);
            var open := MarkApplying(j.(rows := j.rows[k := LeaseRow(r, now)]));
            var tried := TriedJob(open, c, kindKnown, outcome);
            && tried == j.(status := if j.status == Confirmed then Applying else j.status, rows := tried.rows)
            && k in tried.rows && OtherRowsEnd(j.rows, tried.rows, k, false)
            && (kindKnown && !outcome.Refused? ==>
                  && RowEnds(r, tried.rows[k], kindKnown, outcome, until)
                  && FinishRow(tried.rows, k, c.attempts, RowFailed) == tried.rows && RetryRow(tried.rows, k, c.attempts, until) == tried.rows)
            && (!kindKnown || outcome.Refused? ==>
                  && FinishRow(tried.rows, k, c.attempts, RowFailed) == j.rows[k := Row(r.plan, RowFailed, r.attempts + 1, None)]
                  && RetryRow(tried.rows, k, c.attempts, until) == j.rows[k := Row(r.plan, RowApplying, r.attempts + 1, Some(until))])
  {}

  lemma StopIsApplied(j: Job, id: string, k: int, now: int, until: int)
    requires CanClaimRow(j, k, now)
    ensures var r := j.rows[k];
            var c := Claim(id, k, r.attempts + 1, r.plan);
            var tried := TriedJob(MarkApplying(j.(rows := j.rows[k := LeaseRow(r, now)])), c, true, Refused(Forbidden));
            AppliedAs(j, SettledJob(tried, Failing(c, true), now, until), k, true, Refused(Forbidden), now, until)
  {
    hide FinalizeJob, FinishRow, RetryRow, StopRows, LeaseRow, MarkApplying, TriedJob, NothingLeft;
    var r := j.rows[k];
    RowIsWritten(j, id, k, now, true, Refused(Forbidden), until);
    var tried := TriedJob(MarkApplying(j.(rows := j.rows[k := LeaseRow(r, now)])), Claim(id, k, r.attempts + 1, r.plan), true, Refused(Forbidden));
    StoppingMeans(tried.(rows := FinishRow(tried.rows, k, r.attempts + 1, RowFailed)), k, now);
  }

  lemma PostponedIsApplied(j: Job, id: string, k: int, kindKnown: bool, outcome: TxOutcome, now: int, until: int)
    requires CanClaimRow(j, k, now) && Postpones(j.rows[k].attempts, kindKnown, outcome)
    ensures var r := j.rows[k];
            var c := Claim(id, k, r.attempts + 1, r.plan);
            var tried := TriedJob(MarkApplying(j.(rows := j.rows[k := LeaseRow(r, now)])), c, kindKnown, outcome);
            AppliedAs(j, SettledJob(tried, TriedWorker(c, kindKnown, outcome), now, until), k, kindKnown, outcome, now, until)
  {
    hide RetryRow, LeaseRow, MarkApplying, TriedJob, NothingLeft;
    RowIsWritten(j, id, k, now, kindKnown, outcome, until);
  }

  lemma ClosedIsApplied(j: Job, id: string, k: int, kindKnown: bool, outcome: TxOutcome, now: int, until: int)
    requires CanClaimRow(j, k, now) && !Postpones(j.rows[k].attempts, kindKnown, outcome) && !(kindKnown && outcome == Refused(Forbidden))
    ensures var r := j.rows[k];
            var c := Claim(id, k, r.attempts + 1, r.plan);
            var tried := TriedJob(MarkApplying(j.(rows := j.rows[k := LeaseRow(r, now)])), c, kindKnown, outcome);
            AppliedAs(j, SettledJob(tried, TriedWorker(c, kindKnown, outcome), now, until), k, kindKnown, outcome, now, until)
  {
    hide FinalizeJob, FinishRow, RetryRow, StopRows, LeaseRow, MarkApplying, TriedJob, NothingLeft;
    var r := j.rows[k];
    RowIsWritten(j, id, k, now, kindKnown, outcome, until);
    var tried := TriedJob(MarkApplying(j.(rows := j.rows[k := LeaseRow(r, now)])), Claim(id, k, r.attempts + 1, r.plan), kindKnown, outcome);
    ClosingMeans(tried, now);
    ClosingMeans(tried.(rows := FinishRow(tried.rows, k, r.attempts + 1, RowFailed)), now);
  }

  lemma JobIsApplied(j: Job, id: string, k: int, kindKnown: bool, outcome: TxOutcome, now: int, until: int)
    requires CanClaimRow(j, k, now)
    ensures var r := j.rows[k];
            var c := Claim(id, k, r.attempts + 1, r.plan);
            var tried := TriedJob(MarkApplying(j.(rows := j.rows[k := LeaseRow(r, now)])), c, kindKnown, outcome);
            AppliedAs(j, SettledJob(tried, TriedWorker(c, kindKnown, outcome), now, until), k, kindKnown, outcome, now, until)
  {
    hide AppliedAs, SettledJob, TriedJob, MarkApplying, LeaseRow, Postpones;
    if kindKnown && outcome == Refused(Forbidden) {
      StopIsApplied(j, id, k, now, until);
    } else if Postpones(j.rows[k].attempts, kindKnown, outcome) {
      PostponedIsApplied(j, id, k, kindKnown, outcome, now, until);
    } else {
      ClosedIsApplied(j, id, k, kindKnown, outcome, now, until);
    }
  }

  /** The tables before and after one application of row k of job `id` on behalf of the confirming user. */
  ghost predicate ApplicationEnds(s: State, t: State, id: string, k: int, actor: string, kindKnown: bool, outcome: TxOutcome, now: int, until: int) {
    && id in s.jobs && k in s.jobs[id].rows && id in t.jobs && t.jobs == s.jobs[id := t.jobs[id]]
    && AppliedAs(s.jobs[id], t.jobs[id], k, kindKnown, outcome, now, until)
    && t.effects == s.effects + (if kindKnown && !outcome.Refused? then [Effect(id, k, actor, s.jobs[id].rows[k].plan, outcome.needsApproval)] else [])
    && t.previews == s.previews && t.confirmations == s.confirmations
  }

  /**
    One application of a claimable row, whatever its transaction comes to: the
    row ends with the status the owner's answer calls for, the effect is
    committed exactly with a committed result, a revoked permission stops the
    rows still waiting, the job is closed once nothing is left to apply, and no
    other job, row, preview or confirmation is touched.
  */
  lemma ApplicationMeans(h: Hashes, s: State, w: nat, id: string, k: int, kindKnown: bool, outcome: TxOutcome, now: int, until: int, actor: string)
    requires WorkerAt(s, w).Idle? && id in s.jobs && CanClaimRow(s.jobs[id], k, now) && s.jobs[id].confirmedBy == Some(actor)
    ensures ApplicationEnds(s, Exec(h, s, ApplyRun(w, id, k, kindKnown, outcome, now, until)), id, k, actor, kindKnown, outcome, now, until)
  {
    hide Do, Exec, AppliedAs, SettledBy, SettledJob, MarkApplying, FinishRow;
    ApplyRunIs(h, s, w, id, k, kindKnown, outcome, now, until);
    var c := Claim(id, k, s.jobs[id].rows[k].attempts + 1, s.jobs[id].rows[k].plan);
    var claimed := Do(h, Do(h, s, LeaseNext(w, id, k, now)), TouchJob(w));
    ClaimedIs(h, s, w, id, k, now, actor);
    assert HoldsLease(claimed.jobs[id].rows, k, c.attempts) by { MarkingLeavesRows(s.jobs[id].(rows := s.jobs[id].rows[k := LeaseRow(s.jobs[id].rows[k], now)])); }
    TriedIs(h, claimed, w, c, actor, kindKnown, outcome);
    var tried := Do(h, claimed, if kindKnown then ApplyRow(w, outcome) else KindMissing(w));
    SettledIs(h, tried, w, id, now, until);
    JobIsApplied(s.jobs[id], id, k, kindKnown, outcome, now, until);
  }

  lemma MarkingLeavesRows(j: Job)
    ensures MarkApplying(j).rows == j.rows
  {}
}
