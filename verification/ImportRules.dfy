/**
  What each operation of the import engine is for, in the statuses, times and
  counts of the design: when a request is accepted and why it is refused, what
  an application of a row leaves, and how long a lease keeps others away.
*/
module ImportRules {
  import opened Options
  import opened Tally
  import opened ImportModel
  import opened ImportProtocol
  import opened ImportSafety
  import opened ImportTheorems
  import ImportTrail

  /** Some row has the status. */
  ghost predicate HasRow(rows: Rows, st: RowStatus) { exists k :: k in rows && rows[k].status == st }

  // ---- confirm ---------------------------------------------------------------------

  /**
    In every reachable state a request that is no repetition is accepted
    exactly when the preview waits, is the one the user saw and at most 24
    hours old, some row is valid, the feature is enabled, and a duplicate file
    is acknowledged. Each refusal names the first of these that fails, and a
    refused request changes nothing.
  */
  lemma ConfirmIff(h: Hashes, steps: seq<Step>, id: string, actor: string, input: ConfirmInput, now: int, enabled: bool, duplicate: bool)
    requires var s := Exec(h, Start, steps);
             id in s.jobs && !(s.jobs[id].confirmedBy == Some(actor) && s.jobs[id].previewHash == input.previewHash)
    ensures var s := Exec(h, Start, steps);
            var j := s.jobs[id];
            var answer := Confirm(j, actor, input, now, enabled, duplicate);
            var waits := j.status == PreviewReady;
            var seen := j.version == input.expectedVersion && j.previewHash == input.previewHash
                        && j.previewAt.Some? && now - j.previewAt.value <= 86_400;
            var work := HasRow(j.rows, RowValid);
            && (answer == Err(StateConflict) <==> !waits)
            && (answer == Err(PreviewStale) <==> waits && !seen)
            && (answer == Err(NothingToApply) <==> waits && seen && !work)
            && (answer == Err(Disabled) <==> waits && seen && work && !enabled)
            && (answer == Err(DuplicateFile) <==> waits && seen && work && enabled && duplicate && !input.acknowledgeDuplicate)
            && (answer.Ok? <==> waits && seen && work && enabled && (duplicate ==> input.acknowledgeDuplicate))
            && (answer.Ok? ==> answer.value == j.(status := Confirmed, confirmedBy := Some(actor), version := j.version + 1))
            && Do(h, s, UserConfirm(id, actor, input, now, enabled, duplicate))
               == if answer.Ok? then s.(jobs := s.jobs[id := answer.value], confirmations := s.confirmations + [Confirmation(id, actor, j.previewHash)])
                  else s
  {
    hide Exec, Inv, HasRow, HasPending;
    EveryRun(h, steps);
    JobFact(h, Exec(h, Start, steps), id);
    WorkIsValid(Exec(h, Start, steps).jobs[id]);
  }

  lemma WorkIsValid(j: Job)
    requires JobInv(j)
    ensures j.status.PreviewReady? ==> (HasPending(j.rows) <==> HasRow(j.rows, RowValid))
  {
    if j.status.PreviewReady? && HasPending(j.rows) { ImportTrail.PendingIsValid(j); }
  }

  /** A confirmation repeated at any later time returns the job as it is then and changes nothing. */
  lemma ConfirmRepeats(h: Hashes, steps: seq<Step>, c: Confirmation, input: ConfirmInput, now: int, enabled: bool, duplicate: bool)
    requires c in Exec(h, Start, steps).confirmations && input.previewHash == c.hash
    ensures var s := Exec(h, Start, steps);
            && c.job in s.jobs
            && Confirm(s.jobs[c.job], c.actor, input, now, enabled, duplicate) == Ok(s.jobs[c.job])
            && Do(h, s, UserConfirm(c.job, c.actor, input, now, enabled, duplicate)) == s
  {
    hide Exec, Inv;
    EveryRun(h, steps);
    AcceptedFact(h, Exec(h, Start, steps), c);
  }

  lemma AcceptedFact(h: Hashes, s: State, c: Confirmation)
    requires Inv(h, s) && c in s.confirmations
    ensures Accepted(s, c)
  {
    var n :| 0 <= n < |s.confirmations| && s.confirmations[n] == c;
    assert Accepted(s, s.confirmations[n]);
  }

  // ---- cancel ----------------------------------------------------------------------

  /**
    A cancel is refused exactly when the job has completed or its file failed,
    and repeats the answer of a job already cancelled or cancelling. Otherwise
    every valid row is cancelled and no other row touched, and the job is
    cancelling exactly while a row is in flight, and cancelled if none is.
  */
  lemma CancelMeans(h: Hashes, steps: seq<Step>, id: string, now: int)
    requires id in Exec(h, Start, steps).jobs
    ensures var s := Exec(h, Start, steps);
            var j := s.jobs[id];
            var b := Cancel(j, now);
            && Do(h, s, UserCancel(id, now)) == s.(jobs := s.jobs[id := b])
            && (RefusesCancel(j) <==> j.status in {Completed, FileInvalid, ValidationFailed})
            && (j.status in {Completed, FileInvalid, ValidationFailed, Cancelled, Cancelling} ==> b == j)
            && (j.status in {Uploaded, Validating, PreviewReady, Confirmed, Applying} ==>
                  && b.rows.Keys == j.rows.Keys
                  && (forall k :: k in j.rows ==>
                        if j.rows[k].status == RowValid then b.rows[k] == j.rows[k].(status := RowCancelled) else b.rows[k] == j.rows[k])
                  && (if exists k :: k in j.rows && j.rows[k].status == RowApplying then b.status == Cancelling && b.finishedAt.None?
                      else b.status == Cancelled && b.finishedAt == Some(now))
                  && b.version == j.version + 1)
  {
    hide Exec;
    StopRowsSteps(Exec(h, Start, steps).jobs[id].rows);
  }

  // ---- the upload ------------------------------------------------------------------

  /** A new job waits for its dry-run from its upload on, unseen and unconfirmed; a repeated upload changes nothing. */
  lemma UploadMeans(h: Hashes, s: State, id: string, now: int, later: int)
    ensures var t := Do(h, s, Upload(id, now));
            && (id in s.jobs ==> t == s)
            && (id !in s.jobs ==>
                  && t == s.(jobs := s.jobs[id := Job(Uploaded, 1, 0, now, "", None, None, "", None, map[])])
                  && (CanClaimValidation(t.jobs[id], later) <==> later >= now))
  {}

  // ---- the dry-run -----------------------------------------------------------------

  /**
    How a dry-run that still holds its job reports a failure: a bad file ends
    the job at once; anything else sends it back to be tried again once the
    backoff is over, except on the fifth attempt or later, which ends it.
  */
  lemma DryRunFailureMeans(h: Hashes, s: State, w: nat, failure: PlanFailure, now: int, backoff: nat, later: int)
    requires WorkerAt(s, w).Planning? && WorkerAt(s, w).job in s.jobs
    requires var j := s.jobs[WorkerAt(s, w).job]; j.status == Validating && j.attempts == WorkerAt(s, w).attempts
    ensures var id := WorkerAt(s, w).job;
            var j := s.jobs[id];
            var t := Do(h, s, StoreFailure(w, failure, now, backoff));
            && id in t.jobs && t == s.(jobs := s.jobs[id := t.jobs[id]], workers := s.workers[w := Idle])
            && t.jobs[id].rows == j.rows && t.jobs[id].attempts == j.attempts
            && (t.jobs[id].status == FileInvalid <==> failure == BadFile)
            && (t.jobs[id].status == ValidationFailed <==> failure == Unavailable && j.attempts >= 5)
            && (t.jobs[id].status == Uploaded <==> failure == Unavailable && j.attempts < 5)
            && t.jobs[id].errorCode == (match t.jobs[id].status
                                        case FileInvalid => "file_invalid"
                                        case ValidationFailed => "validation_unavailable"
                                        case _ => j.errorCode)
            && t.jobs[id].version == (if t.jobs[id].status == Uploaded then j.version else j.version + 1)
            && (t.jobs[id].status == Uploaded ==> (CanClaimValidation(t.jobs[id], later) <==> later >= now + backoff))
            && (t.jobs[id].status != Uploaded ==> t.jobs[id].finishedAt == Some(now) && !CanClaimValidation(t.jobs[id], later))
  {}

  /** In every run a job whose file was never judged has failed only after five attempts. */
  lemma FailsAfterFive(h: Hashes, steps: seq<Step>, id: string)
    requires id in Exec(h, Start, steps).jobs && Exec(h, Start, steps).jobs[id].status == ValidationFailed
    ensures Exec(h, Start, steps).jobs[id].attempts >= 5
  {
    hide Exec;
    EveryRun(h, steps);
    JobFact(h, Exec(h, Start, steps), id);
  }

  /** A saved preview has exactly the planned rows, none of them tried yet, and waits for its confirmation. */
  lemma SavedPreviewMeans(h: Hashes, s: State, w: nat, planned: seq<PlannedRow>, now: int)
    requires WorkerAt(s, w).Planning? && WorkerAt(s, w).job in s.jobs && Planned(planned) && Insertable(planned)
    requires var j := s.jobs[WorkerAt(s, w).job]; j.status == Validating && j.attempts == WorkerAt(s, w).attempts
    ensures var id := WorkerAt(s, w).job;
            var t := Do(h, s, StorePreview(w, planned, now));
            && id in t.jobs && t.jobs == s.jobs[id := t.jobs[id]] && t.effects == s.effects && t.confirmations == s.confirmations
            && t.jobs[id].status == PreviewReady && t.jobs[id].version == s.jobs[id].version + 1 && t.jobs[id].previewAt == Some(now)
            && |t.jobs[id].rows| == |planned|
            && forall i :: 0 <= i < |planned| ==>
                 planned[i].rowNo in t.jobs[id].rows && t.jobs[id].rows[planned[i].rowNo] == Row(planned[i].plan, planned[i].status, 0, None)
  {
    hide RowsOf;
    RowsOfPlanned(planned);
    RowsOfCount(planned);
  }

  lemma {:induction false} RowsOfCount(planned: seq<PlannedRow>)
    requires Insertable(planned)
    ensures |RowsOf(planned)| == |planned|
    decreases |planned|
  {
    if planned != [] {
      var n := |planned| - 1;
      RowsOfPlanned(planned[..n]);
      RowsOfCount(planned[..n]);
      var before := RowsOf(planned[..n]);
      assert planned[n].rowNo !in before;
      assert RowsOf(planned).Keys == before.Keys + {planned[n].rowNo};
    }
  }

  // ---- how long a claim keeps others away ------------------------------------------

  /** A dry-run's claim lasts 180 seconds: as long as nothing else happens to the job, it can be claimed from then on and not before. */
  lemma DryRunLeaseLasts(h: Hashes, s: State, w: nat, id: string, now: int, later: int)
    requires WorkerAt(s, w).Idle? && id in s.jobs && s.jobs[id].status in {Uploaded, Validating} && s.jobs[id].nextAttemptAt <= now
    ensures var t := Do(h, s, ClaimDryRun(w, id, now));
            && WorkerAt(t, w) == Planning(id, s.jobs[id].attempts + 1)
            && t.jobs == s.jobs[id := s.jobs[id].(status := Validating, attempts := s.jobs[id].attempts + 1, nextAttemptAt := now + 180)]
            && (CanClaimValidation(t.jobs[id], later) <==> later >= now + 180)
  {}

  /** A row's claim lasts 120 seconds, and a postponed row's until the end of its backoff. */
  lemma RowLeaseLasts(h: Hashes, s: State, w: nat, id: string, k: int, now: int, later: int, until: int)
    requires WorkerAt(s, w).Idle? && id in s.jobs && k in s.jobs[id].rows
    requires var j, r := s.jobs[id], s.jobs[id].rows[k];
             || (r.status == RowValid && j.status in {Confirmed, Applying})
             || (r.status == RowApplying && r.leaseUntil.Some? && r.leaseUntil.value < now)
    ensures var r := s.jobs[id].rows[k];
            var t := Do(h, s, LeaseNext(w, id, k, now));
            var p := Do(h, Go(t, w, Retrying(Claim(id, k, r.attempts + 1, r.plan))), StoreRetry(w, until));
            && WorkerAt(t, w) == Leased(Claim(id, k, r.attempts + 1, r.plan)) && t.effects == s.effects && t.jobs.Keys == s.jobs.Keys
            && t.jobs[id] == s.jobs[id].(rows := s.jobs[id].rows[k := Row(r.plan, RowApplying, r.attempts + 1, Some(now + 120))])
            && (CanClaimRow(t.jobs[id], k, later) <==> later > now + 120)
            && p.jobs == t.jobs[id := t.jobs[id].(rows := t.jobs[id].rows[k := Row(r.plan, RowApplying, r.attempts + 1, Some(until))])]
            && (CanClaimRow(p.jobs[id], k, later) <==> later > until)
  {}

  // ---- the outcome of a job ----------------------------------------------------------

  lemma CountIsZeroIff(rows: Rows, st: RowStatus)
    ensures Count(rows, st) >= 0
    ensures Count(rows, st) == 0 <==> !HasRow(rows, st)
  {
    TotalNonNegative(rows, Has(st));
    if 0 < Total(rows, Has(st)) {
      var k := TotalWitness(rows, Has(st));
    }
    if HasRow(rows, st) {
      var k :| k in rows && rows[k].status == st;
      TotalSplit(rows, k, Has(st));
      TotalNonNegative(rows - {k}, Has(st));
    }
  }

  /**
    The outcome shown for a job: none before a confirmed job is completed or
    cancelled; then "failed" exactly when no row was applied, "succeeded"
    exactly when one was and none is failed, cancelled or invalid, and
    "partial" otherwise. Unchanged rows do not matter.
  */
  lemma OutcomeMeans(j: Job)
    ensures var out := OutcomeOf(j.status, j.confirmedBy.Some?, SummaryOf(j.rows));
            var over := j.confirmedBy.Some? && j.status in {Completed, Cancelled};
            var applied := HasRow(j.rows, RowSucceeded) || HasRow(j.rows, RowNeedsApproval);
            var missed := HasRow(j.rows, RowFailed) || HasRow(j.rows, RowCancelled) || HasRow(j.rows, RowInvalid);
            && (out == NoOutcome <==> !over)
            && (out == AllFailed <==> over && !applied)
            && (out == AllSucceeded <==> over && applied && !missed)
            && (out == Partial <==> over && applied && missed)
  {
    hide Count, HasRow;
    CountIsZeroIff(j.rows, RowSucceeded);
    CountIsZeroIff(j.rows, RowNeedsApproval);
    CountIsZeroIff(j.rows, RowFailed);
    CountIsZeroIff(j.rows, RowCancelled);
    CountIsZeroIff(j.rows, RowInvalid);
  }
}
