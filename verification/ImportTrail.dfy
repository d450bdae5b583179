/**
  From every committed Apply back to the steps of the run that caused it: the
  preview that was saved, the request that confirmed it, and the transaction
  that applied the row.
*/
module ImportTrail {
  import opened Options
  import opened ImportModel
  import PreviewHash
  import opened ImportProtocol
  import opened ImportSafety
  import opened ImportTheorems

  /** The state before the n-th step. */
  function At(h: Hashes, steps: seq<Step>, n: nat): State
    requires n <= |steps|
  {
    Exec(h, Start, steps[..n])
  }

  /** A dry-run that holds its job's lease saves the preview. */
  predicate Saves(s: State, step: Step, id: string) {
    && step.StorePreview? && WorkerAt(s, step.w).Planning? && WorkerAt(s, step.w).job == id
    && id in s.jobs && s.jobs[id].status == Validating && s.jobs[id].attempts == WorkerAt(s, step.w).attempts
  }

  /** A user confirms a waiting preview with its hash and version, at most a day after it was saved. */
  ghost predicate Confirms(s: State, step: Step, c: Confirmation, previewAt: int) {
    && step.UserConfirm? && step.id == c.job && step.actor == c.actor && step.input.previewHash == c.hash
    && step.now - previewAt <= 86_400
    && step.enabled && (step.duplicate ==> step.input.acknowledgeDuplicate)
    && c.job in s.jobs && s.jobs[c.job].status == PreviewReady && s.jobs[c.job].version == step.input.expectedVersion
    && s.jobs[c.job].previewHash == c.hash
    && exists k :: k in s.jobs[c.job].rows && s.jobs[c.job].rows[k].status == RowValid
  }

  /** A worker that holds the row's lease applies it; the owner's answer says whether approval is needed. */
  predicate Applies(s: State, step: Step, e: Effect) {
    && step.ApplyRow? && (step.outcome == Committed(e.approval) || step.outcome == AnswerLost(e.approval))
    && WorkerAt(s, step.w).Ready? && WorkerAt(s, step.w).actor == e.actor
    && var c := WorkerAt(s, step.w).claim;
       && c.job == e.job && c.rowNo == e.rowNo && c.plan == e.plan
       && e.job in s.jobs && e.rowNo in s.jobs[e.job].rows
       && s.jobs[e.job].rows[e.rowNo].status == RowApplying && s.jobs[e.job].rows[e.rowNo].attempts == c.attempts
  }

  lemma LastStep(h: Hashes, steps: seq<Step>)
    requires steps != []
    ensures var n := |steps| - 1; Exec(h, Start, steps) == Do(h, At(h, steps, n), steps[n])
  {
    hide Do;
    var n := |steps| - 1;
    assert steps == steps[..n] + [steps[n]];
    ExecCompose(h, Start, steps[..n], [steps[n]]);
    assert [steps[n]][1..] == [];
  }

  // ---- the Apply ---------------------------------------------------------------

  lemma StepEffect(h: Hashes, s: State, step: Step)
    ensures var t := Do(h, s, step);
            t.effects == s.effects || exists e :: t.effects == s.effects + [e] && Applies(s, step, e)
  {
    if step.ApplyRow? && WorkerAt(s, step.w).Ready? && !step.outcome.Refused? {
      var c := WorkerAt(s, step.w).claim;
      if c.job in s.jobs && HoldsLease(s.jobs[c.job].rows, c.rowNo, c.attempts) {
        var e := Effect(c.job, c.rowNo, WorkerAt(s, step.w).actor, c.plan, step.outcome.needsApproval);
        assert Do(h, s, step).effects == s.effects + [e] && Applies(s, step, e);
      }
    }
  }

  /** Each effect is the answer of its own apply step. */
  lemma {:induction false} EffectIsAnswer(h: Hashes, steps: seq<Step>, n: nat)
    requires n < |Exec(h, Start, steps).effects|
    ensures exists m :: 0 <= m < |steps| && |At(h, steps, m).effects| == n && Applies(At(h, steps, m), steps[m], Exec(h, Start, steps).effects[n])
    decreases |steps|
  {
    hide Do, Exec, Applies;
    assert steps != [] by { StartHasNothing(h); }
    var last := |steps| - 1;
    var s := At(h, steps, last);
    LastStep(h, steps);
    StepEffect(h, s, steps[last]);
    if n < |s.effects| {
      EffectIsAnswer(h, steps[..last], n);
      var m :| 0 <= m < last && |At(h, steps[..last], m).effects| == n && Applies(At(h, steps[..last], m), steps[..last][m], s.effects[n]);
      assert steps[..last][..m] == steps[..m];
      assert At(h, steps, m) == At(h, steps[..last], m);
    } else {
      assert Applies(At(h, steps, last), steps[last], Exec(h, Start, steps).effects[n]);
    }
  }

  lemma StartHasNothing(h: Hashes)
    ensures Exec(h, Start, []) == Start
  {}

  // ---- the preview -------------------------------------------------------------

  lemma OtherStepsLeavePreviews(h: Hashes, s: State, step: Step)
    requires !step.StorePreview?
    ensures Do(h, s, step).previews == s.previews
  {
    hide FailValidation, Confirm, Cancel, FinalizeJob, StopJob, MarkApplying, LeaseRow, FinishRow, RetryRow, StopRows, ClaimValidation;
  }

  lemma StoreStepPreview(h: Hashes, s: State, step: Step, id: string)
    requires step.StorePreview? && id in Do(h, s, step).previews && (id in s.previews ==> id in s.jobs && !Unpreviewed(s.jobs[id]))
    ensures var t := Do(h, s, step);
            && (id in s.previews ==> t.previews[id] == s.previews[id])
            && (id !in s.previews ==> id in t.jobs && Saves(s, step, id) && t.previews[id] == step.planned && t.jobs[id].previewAt == Some(step.now))
  {
    hide RowsOf, Insertable;
  }

  lemma PreviewedFact(h: Hashes, s: State, id: string)
    requires Inv(h, s) && id in s.previews
    ensures id in s.jobs && !Unpreviewed(s.jobs[id])
  {}

  lemma StepPreview(h: Hashes, s: State, step: Step, id: string)
    requires Inv(h, s) && id in Do(h, s, step).previews
    ensures var t := Do(h, s, step);
            && id in t.jobs
            && (id in s.previews ==> id in s.jobs && t.previews[id] == s.previews[id] && t.jobs[id].previewAt == s.jobs[id].previewAt)
            && (id !in s.previews ==> Saves(s, step, id) && t.previews[id] == step.planned && t.jobs[id].previewAt == Some(step.now))
  {
    hide Do, Inv, Saves;
    if id in s.previews {
      PreviewedFact(h, s, id);
      StepKeeps(h, s, step);
      assert JobStep(s.jobs[id], Do(h, s, step).jobs[id]);
    }
    if step.StorePreview? { StoreStepPreview(h, s, step, id); } else { OtherStepsLeavePreviews(h, s, step); }
  }

  /** A job's preview was saved by one step, at the time the job shows. */
  lemma {:induction false} PreviewIsSaved(h: Hashes, steps: seq<Step>, id: string)
    requires id in Exec(h, Start, steps).previews
    ensures var s := Exec(h, Start, steps);
            && id in s.jobs
            && exists p :: 0 <= p < |steps| && Saves(At(h, steps, p), steps[p], id)
                           && steps[p].planned == s.previews[id] && s.jobs[id].previewAt == Some(steps[p].now)
    decreases |steps|
  {
    hide Do, Exec, Inv;
    assert steps != [] by { StartHasNothing(h); }
    var last := |steps| - 1;
    var s := At(h, steps, last);
    LastStep(h, steps);
    EveryRun(h, steps[..last]);
    StepPreview(h, s, steps[last], id);
    if id in s.previews {
      PreviewIsSaved(h, steps[..last], id);
      var p :| 0 <= p < last && Saves(At(h, steps[..last], p), steps[..last][p], id)
               && steps[..last][p].planned == s.previews[id] && s.jobs[id].previewAt == Some(steps[..last][p].now);
      assert steps[..last][..p] == steps[..p];
      assert Saves(At(h, steps, p), steps[p], id);
    } else {
      assert Saves(At(h, steps, last), steps[last], id);
    }
  }

  /** A saved preview stays. */
  lemma {:induction false} PreviewStays(h: Hashes, steps: seq<Step>, n: nat, id: string)
    requires n <= |steps| && id in At(h, steps, n).previews
    ensures id in Exec(h, Start, steps).previews && Exec(h, Start, steps).previews[id] == At(h, steps, n).previews[id]
    decreases |steps|
  {
    hide Do, Exec, Inv;
    if n == |steps| {
      assert steps[..n] == steps;
    } else {
      var last := |steps| - 1;
      assert steps[..last][..n] == steps[..n];
      assert At(h, steps, n) == At(h, steps[..last], n);
      PreviewStays(h, steps[..last], n, id);
      LastStep(h, steps);
      EveryRun(h, steps[..last]);
      PreviewsGrow(h, At(h, steps, last), steps[last], id);
      StepPreview(h, At(h, steps, last), steps[last], id);
    }
  }

  lemma PreviewsGrow(h: Hashes, s: State, step: Step, id: string)
    requires id in s.previews
    ensures id in Do(h, s, step).previews
  {
    hide RowsOf, Insertable;
  }

  // ---- the confirmation --------------------------------------------------------

  /** In a preview that waits for its confirmation, rows still to be applied are valid ones. */
  lemma PendingIsValid(j: Job)
    requires JobInv(j) && j.status.PreviewReady? && HasPending(j.rows)
    ensures exists k :: k in j.rows && j.rows[k].status == RowValid
  {
    var k :| k in j.rows && Pending(j.rows[k]);
    assert RowInv(j, j.rows[k]);
  }

  lemma StepConfirmation(h: Hashes, s: State, step: Step)
    requires Inv(h, s)
    ensures var t := Do(h, s, step);
            t.confirmations == s.confirmations
            || exists c :: t.confirmations == s.confirmations + [c] && c.job in s.jobs && s.jobs[c.job].previewAt.Some?
                           && Confirms(s, step, c, s.jobs[c.job].previewAt.value)
  {
    hide Inv, RowsOf, Insertable;
    if step.UserConfirm? && step.id in s.jobs && Do(h, s, step).confirmations != s.confirmations {
      var j, c := s.jobs[step.id], Confirmation(step.id, step.actor, step.input.previewHash);
      JobFact(h, s, step.id);
      PendingIsValid(j);
      assert Confirms(s, step, c, j.previewAt.value);
    }
  }

  /** Each confirmation is a request made while its preview waited. */
  lemma {:induction false} ConfirmationIsRequested(h: Hashes, steps: seq<Step>, c: Confirmation)
    requires c in Exec(h, Start, steps).confirmations
    ensures exists q :: 0 <= q < |steps| && c.job in At(h, steps, q).jobs && At(h, steps, q).jobs[c.job].previewAt.Some?
                        && Confirms(At(h, steps, q), steps[q], c, At(h, steps, q).jobs[c.job].previewAt.value)
    decreases |steps|
  {
    hide Do, Exec, Inv, Confirms;
    assert steps != [] by { StartHasNothing(h); }
    var last := |steps| - 1;
    var s := At(h, steps, last);
    LastStep(h, steps);
    EveryRun(h, steps[..last]);
    StepConfirmation(h, s, steps[last]);
    if c in s.confirmations {
      ConfirmationIsRequested(h, steps[..last], c);
      var q :| 0 <= q < last && c.job in At(h, steps[..last], q).jobs && At(h, steps[..last], q).jobs[c.job].previewAt.Some?
               && Confirms(At(h, steps[..last], q), steps[..last][q], c, At(h, steps[..last], q).jobs[c.job].previewAt.value);
      assert steps[..last][..q] == steps[..q];
      assert At(h, steps, q) == At(h, steps[..last], q);
    } else {
      assert Confirms(At(h, steps, last), steps[last], c, s.jobs[c.job].previewAt.value);
    }
  }

  // ---- main results ------------------------------------------------------------

  /** Step p saves the preview that step q confirms within a day. */
  ghost predicate ConfirmedBySteps(h: Hashes, steps: seq<Step>, p: nat, q: nat, c: Confirmation) {
    && p < q < |steps|
    && Saves(At(h, steps, p), steps[p], c.job) && c.hash == PreviewHash.Of(h, steps[p].planned)
    && Confirms(At(h, steps, q), steps[q], c, steps[p].now)
    && c.job in At(h, steps, q).previews && At(h, steps, q).previews[c.job] == steps[p].planned
  }

  /**
    Every confirmation of a run is one user's request, made at most 24 hours
    after the step that saved the preview, with that preview's hash and the
    job's version, while the preview was waiting and had a row to apply, with
    the feature enabled and a duplicate file acknowledged.
  */
  lemma ConfirmedInTime(h: Hashes, steps: seq<Step>, c: Confirmation)
    requires c in Exec(h, Start, steps).confirmations
    ensures exists p: nat, q: nat :: ConfirmedBySteps(h, steps, p, q, c)
    ensures c.job in Exec(h, Start, steps).previews && c.hash == PreviewHash.Of(h, Exec(h, Start, steps).previews[c.job])
  {
    hide Exec, Inv, Confirms;
    ConfirmationIsRequested(h, steps, c);
    var q :| 0 <= q < |steps| && c.job in At(h, steps, q).jobs && At(h, steps, q).jobs[c.job].previewAt.Some?
             && Confirms(At(h, steps, q), steps[q], c, At(h, steps, q).jobs[c.job].previewAt.value);
    EveryRun(h, steps[..q]);
    ConfirmsStoredPreview(h, At(h, steps, q), steps[q], c);
    PreviewIsSaved(h, steps[..q], c.job);
    var p :| 0 <= p < q && Saves(At(h, steps[..q], p), steps[..q][p], c.job)
             && steps[..q][p].planned == At(h, steps, q).previews[c.job] && At(h, steps, q).jobs[c.job].previewAt == Some(steps[..q][p].now);
    assert steps[..q][..p] == steps[..p];
    assert At(h, steps, p) == At(h, steps[..q], p);
    assert ConfirmedBySteps(h, steps, p, q, c);
    PreviewStays(h, steps, q, c.job);
  }

  lemma ConfirmsStoredPreview(h: Hashes, s: State, step: Step, c: Confirmation)
    requires Inv(h, s) && c.job in s.jobs && s.jobs[c.job].previewAt.Some? && Confirms(s, step, c, s.jobs[c.job].previewAt.value)
    ensures c.job in s.previews && c.hash == PreviewHash.Of(h, s.previews[c.job])
  {
    hide Inv;
    PreviewFact(h, s, c.job);
  }

  /** Steps p, q and m save, confirm and apply what effect e did. */
  ghost predicate Trail(h: Hashes, steps: seq<Step>, p: nat, q: nat, m: nat, c: Confirmation, e: Effect) {
    && q < m < |steps|
    && ConfirmedBySteps(h, steps, p, q, c) && c.job == e.job && c.actor == e.actor
    && (exists i :: 0 <= i < |steps[p].planned| && steps[p].planned[i] == PlannedRow(e.rowNo, RowValid, e.plan))
    && Applies(At(h, steps, m), steps[m], e)
  }

  /**
    The audit trail: behind every committed Apply of a run stand, in this
    order, the step that saved a preview planning exactly this target, payload
    and version as valid, the request that confirmed that preview within a day,
    and the apply transaction of a worker acting for the user who confirmed.
    The row ends as needing approval exactly when the owner answered so, and as
    succeeded otherwise.
  */
  lemma AuditTrail(h: Hashes, steps: seq<Step>, n: nat)
    requires n < |Exec(h, Start, steps).effects|
    ensures var s := Exec(h, Start, steps);
            var e := s.effects[n];
            && (exists p: nat, q: nat, m: nat, c :: Trail(h, steps, p, q, m, c, e) && |At(h, steps, m).effects| == n)
            && e.job in s.jobs && e.rowNo in s.jobs[e.job].rows
            && s.jobs[e.job].rows[e.rowNo].status == if e.approval then RowNeedsApproval else RowSucceeded
  {
    hide Exec, Inv, ConfirmedBySteps, Applies, EffectOk;
    var s := Exec(h, Start, steps);
    var e := s.effects[n];
    EveryRun(h, steps);
    EffectFact(h, s, e);
    EffectIsAnswer(h, steps, n);
    var m :| 0 <= m < |steps| && |At(h, steps, m).effects| == n && Applies(At(h, steps, m), steps[m], e);
    ApplierIsConfirmed(h, steps, m, e);
    var p: nat, q: nat, c :| q < m && ConfirmedBySteps(h, steps, p, q, c) && c.job == e.job && c.actor == e.actor;
    SavedIsPlanned(h, steps, p, q, c, e);
    assert Trail(h, steps, p, q, m, c, e);
    assert EffectOk(s, e) ==> e.job in s.jobs && e.rowNo in s.jobs[e.job].rows
                              && s.jobs[e.job].rows[e.rowNo].status == if e.approval then RowNeedsApproval else RowSucceeded by {
      EffectStatus(s, e);
    }
  }

  lemma EffectStatus(s: State, e: Effect)
    ensures EffectOk(s, e) ==> e.job in s.jobs && e.rowNo in s.jobs[e.job].rows
                               && s.jobs[e.job].rows[e.rowNo].status == if e.approval then RowNeedsApproval else RowSucceeded
  {}

  /** A worker about to apply acts for the user who confirmed. */
  lemma ApplierIsConfirmed(h: Hashes, steps: seq<Step>, m: nat, e: Effect)
    requires m < |steps| && Applies(At(h, steps, m), steps[m], e)
    ensures exists p: nat, q: nat, c :: q < m && ConfirmedBySteps(h, steps, p, q, c) && c.job == e.job && c.actor == e.actor
  {
    hide Exec, Inv, Saves, Confirms;
    var t := At(h, steps, m);
    EveryRun(h, steps[..m]);
    WorkerFact(h, t, steps[m].w);
    ConfirmationFact(h, t, e.job);
    var c := ConfirmationOf(t, e.job);
    ConfirmedInTime(h, steps[..m], c);
    var p: nat, q: nat :| ConfirmedBySteps(h, steps[..m], p, q, c);
    assert steps[..m][..p] == steps[..p] && steps[..m][..q] == steps[..q];
    assert At(h, steps, p) == At(h, steps[..m], p) && At(h, steps, q) == At(h, steps[..m], q);
    assert ConfirmedBySteps(h, steps, p, q, c);
  }

  /** The preview that was confirmed is the one the effect's plan comes from. */
  lemma SavedIsPlanned(h: Hashes, steps: seq<Step>, p: nat, q: nat, c: Confirmation, e: Effect)
    requires ConfirmedBySteps(h, steps, p, q, c) && e in Exec(h, Start, steps).effects && e.job == c.job
    ensures exists i :: 0 <= i < |steps[p].planned| && steps[p].planned[i] == PlannedRow(e.rowNo, RowValid, e.plan)
  {
    hide Exec, Inv, Confirms;
    ConfirmPinsApply(h, steps, e);
    PreviewStays(h, steps, q, e.job);
  }
}
