/**
  The import service as it runs: the tables updated in place, statement by
  statement, and the two worker steps ApplyNext and ValidateNext. Every
  statement is one step of the protocol and every call is a run of it, so the
  guarantees over all runs hold for this code.
*/
module ImportService {
  import opened Options
  import opened Tally
  import opened ImportModel
  import PreviewHash
  import opened ImportProtocol
  import opened ImportSafety
  import opened ImportTheorems
  import opened ImportApply

  /** One group of SELECT status,count(*) ... GROUP BY status. */
  datatype Group = Group(status: RowStatus, n: int)

  ghost predicate IsGrouping(rows: Rows, groups: seq<Group>) {
    && (forall i, j :: 0 <= i < j < |groups| ==> groups[i].status != groups[j].status)
    && (forall i :: 0 <= i < |groups| ==> groups[i].n == Count(rows, groups[i].status))
    && (forall k :: k in rows ==> exists i :: 0 <= i < |groups| && groups[i].status == rows[k].status)
  }

  /** The count a group list gives a status; absent means zero. */
  ghost function Grouped(groups: seq<Group>, st: RowStatus): int
    decreases |groups|
  {
    if groups == [] then 0
    else
      var g := groups[|groups| - 1];
      Grouped(groups[..|groups| - 1], st) + (if g.status == st then g.n else 0)
  }

  lemma {:induction false} GroupedAbsent(groups: seq<Group>, st: RowStatus)
    requires forall i :: 0 <= i < |groups| ==> groups[i].status != st
    ensures Grouped(groups, st) == 0
    decreases |groups|
  {
    if groups != [] { GroupedAbsent(groups[..|groups| - 1], st); }
  }

  lemma {:induction false} GroupedPresent(groups: seq<Group>, i: nat)
    requires i < |groups| && forall x, y :: 0 <= x < y < |groups| ==> groups[x].status != groups[y].status
    ensures Grouped(groups, groups[i].status) == groups[i].n
    decreases |groups|
  {
    var n := |groups| - 1;
    if i == n { GroupedAbsent(groups[..n], groups[n].status); } else { GroupedPresent(groups[..n], i); }
  }

  lemma GroupingCounts(rows: Rows, groups: seq<Group>, st: RowStatus)
    requires IsGrouping(rows, groups)
    ensures Grouped(groups, st) == Count(rows, st)
  {
    if i :| 0 <= i < |groups| && groups[i].status == st {
      GroupedPresent(groups, i);
    } else {
      GroupedAbsent(groups, st);
      assert forall k :: k in rows ==> 0 <= Has(st)(rows[k]);
      if 0 < Total(rows, Has(st)) {
        var k := TotalWitness(rows, Has(st));
      }
      TotalNonNegative(rows, Has(st));
    }
  }

  /** What the loop over the groups has collected so far. */
  ghost predicate Folded(out: Summary, groups: seq<Group>) {
    && AddsUp(out)
    && out.invalid == Grouped(groups, RowInvalid)
    && out.same == Grouped(groups, RowUnchanged)
    && out.pending == Grouped(groups, RowValid) + Grouped(groups, RowApplying)
    && out.succeeded == Grouped(groups, RowSucceeded)
    && out.needsApproval == Grouped(groups, RowNeedsApproval)
    && out.failed == Grouped(groups, RowFailed)
    && out.cancelled == Grouped(groups, RowCancelled)
  }

  lemma GroupedStep(groups: seq<Group>, i: nat, st: RowStatus)
    requires i < |groups| && forall x, y :: 0 <= x < y < |groups| ==> groups[x].status != groups[y].status
    ensures Grouped(groups[..i + 1], st) == if groups[i].status == st then groups[i].n else Grouped(groups[..i], st)
  {
    assert groups[..i + 1][..i] == groups[..i];
    GroupedAbsent(groups[..i], groups[i].status);
  }

  lemma FoldedIsSummary(rows: Rows, groups: seq<Group>, out: Summary)
    requires Folded(out, groups)
    requires forall st: RowStatus :: Grouped(groups, st) == Count(rows, st)
    ensures out == SummaryOf(rows)
  {
    EveryRowIsCounted(rows);
    PendingIsCounted(rows);
    assert out.pending == SummaryOf(rows).pending;
  }

  /** The grouped query folded into a summary agrees with the eight counting subqueries. */
  method Summarize(groups: seq<Group>, ghost rows: Rows) returns (out: Summary)
    requires IsGrouping(rows, groups)
    ensures out == SummaryOf(rows)
  {
    out := Summary(0, 0, 0, 0, 0, 0, 0, 0);
    for i := 0 to |groups|
      invariant Folded(out, groups[..i])
    {
      forall st: RowStatus ensures Grouped(groups[..i + 1], st) == if groups[i].status == st then groups[i].n else Grouped(groups[..i], st) {
        GroupedStep(groups, i, st);
      }
      GroupedAbsent(groups[..i], groups[i].status);
      var n := groups[i].n;
      out := out.(total := out.total + n);
      match groups[i].status {
        case RowInvalid => out := out.(invalid := n);
        case RowUnchanged => out := out.(same := n);
        case RowValid => out := out.(pending := out.pending + n);
        case RowApplying => out := out.(pending := out.pending + n);
        case RowSucceeded => out := out.(succeeded := n);
        case RowNeedsApproval => out := out.(needsApproval := n);
        case RowFailed => out := out.(failed := n);
        case RowCancelled => out := out.(cancelled := n);
      }
    }
    assert groups[..|groups|] == groups;
    forall st: RowStatus ensures Grouped(groups, st) == Count(rows, st) { GroupingCounts(rows, groups, st); }
    FoldedIsSummary(rows, groups, out);
  }

  lemma NothingInserted(planned: seq<PlannedRow>)
    ensures Insertable(planned[..0]) && RowsOf(planned[..0]) == map[]
  {}

  /** A row is accepted exactly when its number is positive and new; one refused row refuses them all. */
  lemma OneMoreInsertable(planned: seq<PlannedRow>, i: nat)
    requires i < |planned| && Insertable(planned[..i])
    ensures var p := planned[i];
            && RowsOf(planned[..i + 1]) == RowsOf(planned[..i])[p.rowNo := Row(p.plan, p.status, 0, None)]
            && (p.rowNo <= 0 || p.rowNo in RowsOf(planned[..i]) ==> !Insertable(planned))
            && (p.rowNo > 0 && p.rowNo !in RowsOf(planned[..i]) ==> Insertable(planned[..i + 1]))
  {
    var before := planned[..i];
    assert planned[..i + 1][..i] == before;
    RowsOfPlanned(before);
    hide RowsOf;
    if planned[i].rowNo in RowsOf(before) {
      var j :| 0 <= j < i && before[j].rowNo == planned[i].rowNo;
      assert planned[j].rowNo == planned[i].rowNo;
    } else {
      assert forall j :: 0 <= j < i ==> before[j].rowNo in RowsOf(before);
    }
  }

  /** The tables of one owner service, and what an observer records about them. */
  class Service {
    const h: Hashes
    var jobs: map<string, Job>
    var effects: seq<Effect>
    ghost var workers: map<nat, Worker>
    ghost var previews: map<string, seq<PlannedRow>>
    ghost var confirmations: seq<Confirmation>

    ghost function Now(): State
      reads this
    {
      State(jobs, workers, effects, previews, confirmations)
    }

    constructor (h: Hashes)
      ensures Now() == Start && this.h == h
    {
      this.h := h;
      jobs, effects, workers, previews, confirmations := map[], [], map[], map[], [];
    }

    method CreateJob(id: string, now: int) returns (created: bool)
      modifies this
      ensures created <==> id !in old(jobs)
      ensures created ==> jobs == old(jobs)[id := Job(Uploaded, 1, 0, now, "", None, None, "", None, map[])]
      ensures Now() == Do(h, old(Now()), Upload(id, now))
    {
      created := id !in jobs;
      if created {
        jobs := jobs[id := Job(Uploaded, 1, 0, now, "", None, None, "", None, map[])];
      }
    }

    // ---- dry-run -------------------------------------------------------------

    /** Leases the next uploaded job; any claimable one, since locked jobs are skipped. */
    method ClaimNextValidation(w: nat, now: int) returns (id: string, attempts: nat, found: bool)
      requires WorkerAt(Now(), w).Idle?
      modifies this
      ensures !found ==> Now() == old(Now()) && forall x :: x in jobs ==> !CanClaimValidation(jobs[x], now)
      ensures found ==> id in old(jobs) && CanClaimValidation(old(jobs)[id], now) && WorkerAt(Now(), w) == Planning(id, attempts)
      ensures found ==> Now() == Do(h, old(Now()), ClaimDryRun(w, id, now))
    {
      id, attempts, found := "", 0, false;
      if x :| x in jobs && (jobs[x].status.Uploaded? || jobs[x].status.Validating?) && jobs[x].nextAttemptAt <= now {
        var j := jobs[x];
        id, attempts, found := x, j.attempts + 1, true;
        jobs := jobs[x := j.(status := Validating, attempts := attempts, nextAttemptAt := now + VALIDATION_LEASE)];
        workers := workers[w := Planning(id, attempts)];
      }
    }

    /** INSERT INTO import_rows: refused as a whole on a bad or repeated row number. */
    method InsertRows(planned: seq<PlannedRow>) returns (ok: bool, rows: Rows)
      ensures ok <==> Insertable(planned)
      ensures ok ==> rows == RowsOf(planned)
    {
      hide Insertable, RowsOf;
      rows := map[];
      NothingInserted(planned);
      for i := 0 to |planned|
        invariant Insertable(planned[..i]) && rows == RowsOf(planned[..i])
      {
        var p := planned[i];
        OneMoreInsertable(planned, i);
        if p.rowNo <= 0 || p.rowNo in rows {
          return false, rows;
        }
        rows := rows[p.rowNo := Row(p.plan, p.status, 0, None)];
      }
      assert planned[..|planned|] == planned;
      ok := true;
    }

    /** Replaces the job's rows by the planned ones, only while the dry-run lease is still ours. */
    method SaveDryRun(w: nat, id: string, attempts: nat, planned: seq<PlannedRow>, hash: string, now: int)
      requires WorkerAt(Now(), w) == Planning(id, attempts) && id in jobs && Planned(planned)
      requires hash == PreviewHash.Of(h, planned)
      modifies this
      ensures Now() == Do(h, old(Now()), StorePreview(w, planned, now))
    {
      workers := workers[w := Idle];
      var j := jobs[id];
      if !j.status.Validating? || j.attempts != attempts {
        return;
      }
      var inserted, rows := InsertRows(planned);
      if !inserted {
        return;
      }
      jobs := jobs[id := j.(status := PreviewReady, version := j.version + 1, previewHash := hash, previewAt := Some(now), rows := rows)];
      previews := previews[id := planned];
    }

    method RecordFailure(w: nat, id: string, attempts: nat, failure: PlanFailure, now: int, backoff: nat)
      requires WorkerAt(Now(), w) == Planning(id, attempts) && id in jobs
      modifies this
      ensures Now() == Do(h, old(Now()), StoreFailure(w, failure, now, backoff))
    {
      workers := workers[w := Idle];
      var j := jobs[id];
      if j.status.Validating? && j.attempts == attempts {
        if failure.BadFile? {
          j := j.(status := FileInvalid, errorCode := "file_invalid", version := j.version + 1, finishedAt := Some(now));
        } else if attempts >= MAX_APPLY_ATTEMPTS {
          j := j.(status := ValidationFailed, errorCode := "validation_unavailable", version := j.version + 1, finishedAt := Some(now));
        } else {
          j := j.(status := Uploaded, nextAttemptAt := now + backoff);
        }
      }
      jobs := jobs[id := j];
    }

    /** One dry-run, given how planning the file ended: nothing to do, or exactly the claim and its one result. */
    method ValidateNext(w: nat, plan: Result<seq<PlannedRow>, PlanFailure>, now: int, backoff: nat) returns (more: bool)
      requires WorkerAt(Now(), w).Idle? && (plan.Ok? ==> Planned(plan.value))
      modifies this
      ensures !more ==> Now() == old(Now()) && forall id :: id in jobs ==> !CanClaimValidation(jobs[id], now)
      ensures more ==> exists id :: id in old(jobs) && CanClaimValidation(old(jobs)[id], now)
                                    && Now() == Exec(h, old(Now()), ValidateRun(w, id, plan, now, backoff))
    {
      ghost var start := Now();
      var id, attempts, found := ClaimNextValidation(w, now);
      if !found {
        return false;
      }
      match plan {
        case Ok(planned) =>
          var hash := PreviewHash.Compute(h, planned);
          SaveDryRun(w, id, attempts, planned, hash, now);
        case Err(failure) =>
          RecordFailure(w, id, attempts, failure, now, backoff);
      }
      ghost var run := ValidateRun(w, id, plan, now, backoff);
      TwoSteps(h, start, run[0], run[1]);
      return true;
    }

    // ---- users ---------------------------------------------------------------

    /** Confirm: a replay returns the job, anything that changed since the preview is refused. */
    method ConfirmJob(id: string, actor: string, input: ConfirmInput, now: int, enabled: bool, duplicate: bool)
      returns (answer: Result<Job, ConfirmError>)
      modifies this
      ensures answer == if id in old(jobs) then ImportModel.Confirm(old(jobs)[id], actor, input, now, enabled, duplicate) else Err(NoSuchJob)
      ensures Now() == Do(h, old(Now()), UserConfirm(id, actor, input, now, enabled, duplicate))
      ensures confirmations != old(confirmations) ==>
                && id in old(jobs) && old(jobs)[id].status == PreviewReady && old(jobs)[id].version == input.expectedVersion
                && old(jobs)[id].previewAt.Some? && now - old(jobs)[id].previewAt.value <= 86_400
                && enabled && (duplicate ==> input.acknowledgeDuplicate)
    {
      if id !in jobs {
        return Err(NoSuchJob);
      }
      var j := jobs[id];
      if j.confirmedBy == Some(actor) && j.previewHash == input.previewHash {
        return Ok(j);
      }
      if !j.status.PreviewReady? {
        return Err(StateConflict);
      }
      if j.version != input.expectedVersion || j.previewHash != input.previewHash {
        return Err(PreviewStale);
      }
      if j.previewAt.None? || now - j.previewAt.value > PREVIEW_TTL {
        return Err(PreviewStale);
      }
      if !exists k :: k in j.rows && Pending(j.rows[k]) {
        return Err(NothingToApply);
      }
      if !enabled {
        return Err(Disabled);
      }
      if duplicate && !input.acknowledgeDuplicate {
        return Err(DuplicateFile);
      }
      j := j.(status := Confirmed, confirmedBy := Some(actor), version := j.version + 1);
      jobs := jobs[id := j];
      confirmations := confirmations + [Confirmation(id, actor, input.previewHash)];
      return Ok(j);
    }

    /** Cancel: waiting rows stop, rows in flight finish first, a finished job refuses. */
    method CancelJob(id: string, now: int) returns (found: bool, refused: bool)
      modifies this
      ensures found <==> id in old(jobs)
      ensures refused <==> found && RefusesCancel(old(jobs)[id])
      ensures Now() == Do(h, old(Now()), UserCancel(id, now))
    {
      found, refused := id in jobs, false;
      if !found {
        return;
      }
      var j := jobs[id];
      if j.status.Cancelled? || j.status.Cancelling? {
        jobs := jobs[id := j];
      } else if j.status.Completed? || j.status.FileInvalid? || j.status.ValidationFailed? {
        jobs := jobs[id := j];
        refused := true;
      } else {
        var rows := StopRows(j.rows);
        if exists k :: k in rows && rows[k].status.RowApplying? {
          j := j.(status := Cancelling, finishedAt := None);
        } else {
          j := j.(status := Cancelled, finishedAt := Some(now));
        }
        jobs := jobs[id := j.(version := j.version + 1, rows := rows)];
      }
    }

    // ---- applying ------------------------------------------------------------

    /** ClaimRow's first statement: leases any claimable row. */
    method LeaseAnyRow(w: nat, now: int) returns (claim: Option<Claim>)
      requires WorkerAt(Now(), w).Idle?
      modifies this
      ensures claim.None? ==> Now() == old(Now()) && forall id, k :: id in jobs ==> !CanClaimRow(jobs[id], k, now)
      ensures claim.Some? ==> WorkerAt(Now(), w) == Leased(claim.value) && claim.value.job in old(jobs)
                              && CanClaimRow(old(jobs)[claim.value.job], claim.value.rowNo, now)
      ensures claim.Some? ==> Now() == Do(h, old(Now()), LeaseNext(w, claim.value.job, claim.value.rowNo, now))
    {
      if id, k :| id in jobs && k in jobs[id].rows && CanClaimRow(jobs[id], k, now) {
        var j := jobs[id];
        var r := j.rows[k];
        r := r.(status := RowApplying, attempts := r.attempts + 1, leaseUntil := Some(now + ROW_LEASE));
        jobs := jobs[id := j.(rows := j.rows[k := r])];
        var c := Claim(id, k, r.attempts, r.plan);
        workers := workers[w := Leased(c)];
        return Some(c);
      }
      return None;
    }

    /** ClaimRow's second statement: the first claim opens the job, and the confirmer is read. */
    method TouchClaimed(w: nat, c: Claim) returns (actor: Option<string>)
      requires WorkerAt(Now(), w) == Leased(c) && c.job in jobs
      modifies this
      ensures actor == old(jobs)[c.job].confirmedBy
      ensures WorkerAt(Now(), w) == if actor.Some? then Ready(c, actor.value) else Idle
      ensures Now() == Do(h, old(Now()), TouchJob(w))
    {
      var j := jobs[c.job];
      if j.status.Confirmed? {
        j := j.(status := Applying);
      }
      jobs := jobs[c.job := j];
      actor := j.confirmedBy;
      workers := workers[w := if actor.Some? then Ready(c, actor.value) else Idle];
    }

    /** LockRow: inside the apply transaction the lease must still be ours. */
    function LockRow(c: Claim): (held: bool)
      requires c.job in jobs
      reads this
      ensures held <==> HoldsLease(jobs[c.job].rows, c.rowNo, c.attempts)
    {
      c.rowNo in jobs[c.job].rows && jobs[c.job].rows[c.rowNo].status.RowApplying? && jobs[c.job].rows[c.rowNo].attempts == c.attempts
    }

    method UpdateRow(c: Claim, status: RowStatus)
      requires c.job in jobs
      modifies this`jobs
      ensures jobs == old(jobs)[c.job := old(jobs)[c.job].(rows := ImportModel.FinishRow(old(jobs)[c.job].rows, c.rowNo, c.attempts, status))]
    {
      var j := jobs[c.job];
      var rows := j.rows;
      if LockRow(c) {
        rows := rows[c.rowNo := rows[c.rowNo].(status := status, leaseUntil := None)];
      }
      jobs := jobs[c.job := j.(rows := rows)];
    }

    /** The apply transaction; LeaseLost and the caller's error are told apart. */
    method ApplyClaimed(w: nat, c: Claim, actor: string, outcome: TxOutcome) returns (leaseLost: bool, error: Option<ApplyError>)
      requires WorkerAt(Now(), w) == Ready(c, actor) && c.job in jobs
      modifies this
      ensures Now() == Do(h, old(Now()), ApplyRow(w, outcome)) && c.job in jobs
      ensures leaseLost <==> outcome != Refused(Transient) && !HoldsLease(old(jobs)[c.job].rows, c.rowNo, c.attempts)
      ensures leaseLost ==> error.None? && WorkerAt(Now(), w).Idle?
      ensures !leaseLost ==> WorkerAt(Now(), w) == match error {
        case None => Finalizing(c.job, false)
        case Some(e) => if e.Transient? then AfterTransient(c) else Failing(c, e.Forbidden?)
      }
      ensures !leaseLost && !outcome.Refused? ==>
                && effects == old(effects) + [Effect(c.job, c.rowNo, actor, c.plan, outcome.needsApproval)]
                && c.rowNo in jobs[c.job].rows
                && jobs[c.job].rows[c.rowNo].status == if outcome.needsApproval then RowNeedsApproval else RowSucceeded
      ensures leaseLost || outcome.Refused? ==> effects == old(effects) && jobs == old(jobs)
      ensures !leaseLost ==> error == match outcome { case Committed(_) => None case AnswerLost(_) => Some(Transient) case Refused(e) => Some(e) }
    {
      if outcome == Refused(Transient) {
        workers := workers[w := AfterTransient(c)];
        return false, Some(Transient);
      }
      if !LockRow(c) {
        workers := workers[w := Idle];
        return true, None;
      }
      match outcome {
        case Refused(e) =>
          workers := workers[w := Failing(c, e.Forbidden?)];
          return false, Some(e);
        case Committed(needsApproval) =>
          effects := effects + [Effect(c.job, c.rowNo, actor, c.plan, needsApproval)];
          UpdateRow(c, if needsApproval then RowNeedsApproval else RowSucceeded);
          workers := workers[w := Finalizing(c.job, false)];
          return false, None;
        case AnswerLost(needsApproval) =>
          effects := effects + [Effect(c.job, c.rowNo, actor, c.plan, needsApproval)];
          UpdateRow(c, if needsApproval then RowNeedsApproval else RowSucceeded);
          workers := workers[w := AfterTransient(c)];
          return false, Some(Transient);
      }
    }

    method FailRow(w: nat, c: Claim, ghost stop: bool)
      requires WorkerAt(Now(), w) == Failing(c, stop) && c.job in jobs
      modifies this
      ensures Now() == Do(h, old(Now()), StoreRowFailure(w)) && WorkerAt(Now(), w) == Finalizing(c.job, stop) && c.job in jobs
    {
      UpdateRow(c, RowFailed);
      workers := workers[w := Finalizing(c.job, stop)];
    }

    method PostponeRow(w: nat, c: Claim, until: int)
      requires WorkerAt(Now(), w) == Retrying(c) && c.job in jobs
      modifies this
      ensures Now() == Do(h, old(Now()), StoreRetry(w, until)) && WorkerAt(Now(), w).Idle?
    {
      var j := jobs[c.job];
      var rows := j.rows;
      if LockRow(c) {
        rows := rows[c.rowNo := rows[c.rowNo].(leaseUntil := Some(until))];
      }
      jobs := jobs[c.job := j.(rows := rows)];
      workers := workers[w := Idle];
    }

    method FinalizeJob(w: nat, id: string, ghost stop: bool, now: int)
      requires WorkerAt(Now(), w) == Finalizing(id, stop) && id in jobs
      modifies this
      ensures Now() == Do(h, old(Now()), CloseJob(w, now)) && id in jobs
      ensures WorkerAt(Now(), w) == if stop then Stopping(id) else Idle
    {
      var j := jobs[id];
      if (j.status.Confirmed? || j.status.Applying? || j.status.Cancelling?) && !exists k :: k in j.rows && Pending(j.rows[k]) {
        j := j.(status := if j.status.Cancelling? then Cancelled else Completed, finishedAt := Some(now), version := j.version + 1);
      }
      jobs := jobs[id := j];
      workers := workers[w := if stop then Stopping(id) else Idle];
    }

    /** StopJob's first statement. */
    method StopWaitingRows(w: nat, id: string)
      requires WorkerAt(Now(), w) == Stopping(id) && id in jobs
      modifies this
      ensures Now() == Do(h, old(Now()), StopWaiting(w)) && WorkerAt(Now(), w) == StopMarking(id) && id in jobs
    {
      var rows := StopRows(jobs[id].rows);
      jobs := jobs[id := jobs[id].(rows := rows)];
      workers := workers[w := StopMarking(id)];
    }

    /** StopJob's second statement. */
    method MarkJobStopped(w: nat, id: string)
      requires WorkerAt(Now(), w) == StopMarking(id) && id in jobs
      modifies this
      ensures Now() == Do(h, old(Now()), MarkStopped(w)) && WorkerAt(Now(), w) == Finalizing(id, false) && id in jobs
    {
      var j := jobs[id];
      jobs := jobs[id := j.(errorCode := "permission_revoked", version := j.version + 1)];
      workers := workers[w := Finalizing(id, false)];
    }

    /** ClaimRow: both statements, one after the other. */
    method ClaimRow(w: nat, now: int) returns (claim: Option<Claim>, actor: Option<string>)
      requires WorkerAt(Now(), w).Idle?
      modifies this
      ensures claim.None? ==> Now() == old(Now()) && forall id, k :: id in jobs ==> !CanClaimRow(jobs[id], k, now)
      ensures claim.Some? ==> claim.value.job in old(jobs) && CanClaimRow(old(jobs)[claim.value.job], claim.value.rowNo, now)
      ensures claim.Some? ==> claim.value.job in jobs
      ensures claim.Some? ==>
                Now() == Do(h, Do(h, old(Now()), LeaseNext(w, claim.value.job, claim.value.rowNo, now)), TouchJob(w))
      ensures WorkerAt(Now(), w) == if claim.Some? && actor.Some? then Ready(claim.value, actor.value) else Idle
    {
      actor := None;
      claim := LeaseAnyRow(w, now);
      if claim.Some? {
        actor := TouchClaimed(w, claim.value);
      }
    }

    /** Records a failed row and closes its job; a revoked permission also stops the job. */
    method Finish(w: nat, c: Claim, stop: bool, now: int, ghost until: int)
      requires WorkerAt(Now(), w) == Failing(c, stop) && c.job in jobs
      modifies this
      ensures Now() == SettledBy(h, old(Now()), w, now, until)
    {
      hide Do;
      FailRow(w, c, stop);
      FinalizeJob(w, c.job, stop, now);
      if stop {
        StopWaitingRows(w, c.job);
        MarkJobStopped(w, c.job);
        FinalizeJob(w, c.job, false, now);
      }
      IdleWorkerRests(h, Now(), w, now, until);
    }

    /** What the applier does once the transaction is over. */
    method Settle(w: nat, c: Claim, error: Option<ApplyError>, now: int, until: int)
      requires c.job in jobs
      requires WorkerAt(Now(), w) == match error {
        case None => Finalizing(c.job, false)
        case Some(e) => if e.Transient? then AfterTransient(c) else Failing(c, e.Forbidden?)
      }
      modifies this
      ensures Now() == SettledBy(h, old(Now()), w, now, until)
    {
      hide Do;
      ghost var start := Now();
      if error.None? {
        OtherStepsRest(h, start, w, now, until);
        FinalizeJob(w, c.job, false, now);
        IdleWorkerRests(h, Now(), w, now, until);
      } else if error == Some(Forbidden) {
        Finish(w, c, true, now, until);
      } else if error == Some(Rejected) || c.attempts >= MAX_APPLY_ATTEMPTS {
        Finish(w, c, false, now, until);
      } else {
        OtherStepsRest(h, start, w, now, until);
        PostponeRow(w, c, until);
      }
    }

    /**
      One row through the owner's use case: nothing to claim, or exactly the
      statements of one application of a claimable row, to the end. `outcome`
      is what the apply transaction does.
    */
    method ApplyNext(w: nat, kindKnown: bool, outcome: TxOutcome, now: int, until: int) returns (more: bool)
      requires WorkerAt(Now(), w).Idle?
      modifies this
      ensures !more ==> Now() == old(Now()) && forall id, k :: id in jobs ==> !CanClaimRow(jobs[id], k, now)
      ensures more ==> exists id, k :: id in old(jobs) && CanClaimRow(old(jobs)[id], k, now)
                                       && Now() == Exec(h, old(Now()), ApplyRun(w, id, k, kindKnown, outcome, now, until))
                                       && (old(jobs)[id].confirmedBy.Some? ==>
                                             ApplicationEnds(old(Now()), Now(), id, k, old(jobs)[id].confirmedBy.value, kindKnown, outcome, now, until))
    {
      hide Do, Exec, SettledBy, CanClaimRow, ApplicationEnds;
      ghost var start := Now();
      var claim, actor := ClaimRow(w, now);
      if claim.None? {
        return false;
      }
      ghost var claimed := Now();
      ghost var middle := if kindKnown then ApplyRow(w, outcome) else KindMissing(w);
      var error := Some(Rejected);
      var settled := true;
      if actor.None? {
        NotReadyRests(h, claimed, w, outcome);
        settled := false;
      } else if !kindKnown {
        MissingKindFails(h, claimed, w, claim.value, actor.value);
        workers := workers[w := Failing(claim.value, false)];
      } else {
        var leaseLost;
        leaseLost, error := ApplyClaimed(w, claim.value, actor.value, outcome);
        settled := !leaseLost;
      }
      ghost var applied := Now();
      assert applied == Do(h, claimed, middle);
      if settled {
        Settle(w, claim.value, error, now, until);
      } else {
        IdleWorkerIsSettled(h, applied, w, now, until);
      }
      ApplyRunIs(h, start, w, claim.value.job, claim.value.rowNo, kindKnown, outcome, now, until);
      if start.jobs[claim.value.job].confirmedBy.Some? {
        ApplicationMeans(h, start, w, claim.value.job, claim.value.rowNo, kindKnown, outcome, now, until, start.jobs[claim.value.job].confirmedBy.value);
      }
      return true;
    }
  }
}
