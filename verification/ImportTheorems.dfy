/** The guarantees of the import engine, stated over every run. */
module ImportTheorems {
  import opened Options
  import opened Tally
  import opened ImportModel
  import PreviewHash
  import opened ImportProtocol
  import opened ImportSafety

  /**
    Exactly-once apply: however validators, appliers and users interleave,
    crash, lose leases or lose answers, a row has one committed Apply when it
    is applied and none otherwise.
  */
  lemma ExactlyOnceApply(h: Hashes, steps: seq<Step>, id: string, k: int)
    ensures var s := Exec(h, Start, steps);
            EffectCount(s.effects, id, k) == if AppliedRow(s, id, k) then 1 else 0
  {
    EveryRun(h, steps);
  }

  /** Job status and row statuses agree in every reachable state. */
  lemma JobRowConsistency(h: Hashes, steps: seq<Step>, id: string)
    requires id in Exec(h, Start, steps).jobs
    ensures var j := Exec(h, Start, steps).jobs[id];
            && (Terminal(j) ==> forall k :: k in j.rows ==> !j.rows[k].status.RowValid? && !j.rows[k].status.RowApplying?)
            && (j.status.Cancelling? ==> forall k :: k in j.rows ==> !j.rows[k].status.RowValid?)
            && (Unpreviewed(j) ==> j.rows == map[])
            && (j.finishedAt.Some? <==> Terminal(j) || j.status.FileInvalid? || j.status.ValidationFailed?)
            && (j.confirmedBy.None? ==> forall k :: k in j.rows ==>
                  !j.rows[k].status.RowApplying? && !Applied(j.rows[k]) && !j.rows[k].status.RowFailed?)
  {
    EveryRun(h, steps);
    var j := Exec(h, Start, steps).jobs[id];
    assert JobInv(j);
    forall k | k in j.rows ensures RowInv(j, j.rows[k]) {}
  }

  lemma Later(h: Hashes, before: seq<Step>, after: seq<Step>, id: string)
    requires id in Exec(h, Start, before).jobs
    ensures id in Exec(h, Exec(h, Start, before), after).jobs
    ensures JobStep(Exec(h, Start, before).jobs[id], Exec(h, Exec(h, Start, before), after).jobs[id])
  {
    EveryRun(h, before);
    RunKeeps(h, Exec(h, Start, before), after);
  }

  /** Nothing that happens later touches a finished job's status, rows or outcome. */
  lemma FinishedJobsAreFrozen(h: Hashes, before: seq<Step>, after: seq<Step>, id: string)
    requires id in Exec(h, Start, before).jobs && Terminal(Exec(h, Start, before).jobs[id])
    ensures var s := Exec(h, Start, before);
            var t := Exec(h, s, after);
            && id in t.jobs
            && t.jobs[id].status == s.jobs[id].status && t.jobs[id].rows == s.jobs[id].rows
            && t.jobs[id].finishedAt == s.jobs[id].finishedAt
            && OutcomeOf(t.jobs[id].status, t.jobs[id].confirmedBy.Some?, SummaryOf(t.jobs[id].rows))
               == OutcomeOf(s.jobs[id].status, s.jobs[id].confirmedBy.Some?, SummaryOf(s.jobs[id].rows))
            && forall k :: EffectCount(t.effects, id, k) == EffectCount(s.effects, id, k)
  {
    EveryRun(h, before);
    var s := Exec(h, Start, before);
    RunKeeps(h, s, after);
    var t := Exec(h, s, after);
    assert JobStep(s.jobs[id], t.jobs[id]);
    forall k ensures EffectCount(t.effects, id, k) == EffectCount(s.effects, id, k) {
      assert AppliedRow(t, id, k) == AppliedRow(s, id, k);
    }
  }

  /**
    Confirm pins what is applied: behind every committed Apply stands the one
    confirmation of its job, whose hash is the hash of the stored preview, and
    that preview planned exactly this target, payload and version as valid.
  */
  lemma ConfirmPinsApply(h: Hashes, steps: seq<Step>, e: Effect)
    requires e in Exec(h, Start, steps).effects
    ensures var s := Exec(h, Start, steps);
            && e.job in s.previews
            && (exists i :: 0 <= i < |s.previews[e.job]| && s.previews[e.job][i] == PlannedRow(e.rowNo, RowValid, e.plan))
            && Confirmation(e.job, e.actor, PreviewHash.Of(h, s.previews[e.job])) in s.confirmations
            && (forall c :: c in s.confirmations && c.job == e.job ==>
                  c == Confirmation(e.job, e.actor, PreviewHash.Of(h, s.previews[e.job])))
  {
    hide Exec, Inv, Accepted, FromPlan;
    EveryRun(h, steps);
    var s := Exec(h, Start, steps);
    EffectFact(h, s, e);
    PreviewFact(h, s, e.job);
    var j := s.jobs[e.job];
    assert j.rows != map[];
    PlannedAs(h, j, s.previews[e.job], e.rowNo);
    ConfirmationFact(h, s, e.job);
  }

  lemma EffectFact(h: Hashes, s: State, e: Effect)
    requires Inv(h, s) && e in s.effects
    ensures EffectOk(s, e)
  {
    var n :| 0 <= n < |s.effects| && s.effects[n] == e;
    assert EffectOk(s, s.effects[n]);
  }

  lemma PreviewFact(h: Hashes, s: State, id: string)
    requires Inv(h, s) && id in s.jobs && s.jobs[id].rows != map[]
    ensures id in s.previews && PreviewMatches(h, s.jobs[id], s.previews[id])
  {}

  /** A row that was applied was planned as valid. */
  lemma PlannedAs(h: Hashes, j: Job, planned: seq<PlannedRow>, k: int)
    requires PreviewMatches(h, j, planned) && k in j.rows && Applied(j.rows[k])
    ensures exists i :: 0 <= i < |planned| && planned[i] == PlannedRow(k, RowValid, j.rows[k].plan)
    ensures j.previewHash == PreviewHash.Of(h, planned)
  {
    var i :| 0 <= i < |planned| && planned[i].rowNo == k;
    assert FromPlan(planned[i], j.rows[k]);
    assert planned[i] == PlannedRow(k, RowValid, j.rows[k].plan);
  }

  lemma ConfirmationFact(h: Hashes, s: State, id: string)
    requires Inv(h, s) && id in s.jobs && s.jobs[id].confirmedBy.Some?
    ensures ConfirmationOf(s, id) in s.confirmations
    ensures forall c :: c in s.confirmations && c.job == id ==> c == ConfirmationOf(s, id)
  {
    forall c | c in s.confirmations && c.job == id ensures c == ConfirmationOf(s, id) {
      var m :| 0 <= m < |s.confirmations| && s.confirmations[m] == c;
      assert Accepted(s, s.confirmations[m]);
    }
  }

  /** A job is confirmed at most once over its whole life. */
  lemma ConfirmedOnce(h: Hashes, steps: seq<Step>, i: nat, j: nat)
    requires i < j < |Exec(h, Start, steps).confirmations|
    ensures Exec(h, Start, steps).confirmations[i].job != Exec(h, Start, steps).confirmations[j].job
  {
    EveryRun(h, steps);
  }

  // ---- fencing -------------------------------------------------------------

  function ClaimHeld(pc: Worker): Option<Claim> {
    match pc
    case Leased(c) => Some(c)
    case Ready(c, _) => Some(c)
    case Failing(c, _) => Some(c)
    case Retrying(c) => Some(c)
    case _ => None
  }

  predicate By(step: Step, w: nat) {
    match step
    case Upload(_, _) => false
    case UserConfirm(_, _, _, _, _, _) => false
    case UserCancel(_, _) => false
    case _ => step.w == w
  }

  ghost predicate LeavesRows(s: State, t: State) {
    && t.effects == s.effects && t.jobs.Keys == s.jobs.Keys
    && forall id :: id in s.jobs ==> t.jobs[id].rows == s.jobs[id].rows
  }

  lemma StaleResultIsFenced(s: State, w: nat, c: Claim, actor: string, outcome: TxOutcome, until: int)
    requires c.job in s.jobs && c.rowNo in s.jobs[c.job].rows && c.attempts < s.jobs[c.job].rows[c.rowNo].attempts
    ensures LeavesRows(s, ApplyBy(s, w, c, actor, outcome))
    ensures FinishRow(s.jobs[c.job].rows, c.rowNo, c.attempts, RowFailed) == s.jobs[c.job].rows
    ensures RetryRow(s.jobs[c.job].rows, c.rowNo, c.attempts, until) == s.jobs[c.job].rows
  {}

  lemma OtherStepsLeaveRows(h: Hashes, s: State, w: nat, step: Step)
    requires By(step, w) && ClaimHeld(WorkerAt(s, w)).Some? && !step.TouchJob? && !step.ApplyRow? && !step.StoreRowFailure? && !step.StoreRetry?
    ensures LeavesRows(s, Do(h, s, step))
  {
    assert Do(h, s, step).jobs == s.jobs && Do(h, s, step).effects == s.effects;
  }

  /** A worker whose claim is older than the row's attempts changes no row and commits nothing. */
  lemma StaleApplierIsFenced(h: Hashes, s: State, w: nat, step: Step)
    requires By(step, w) && ClaimHeld(WorkerAt(s, w)).Some?
    requires var c := ClaimHeld(WorkerAt(s, w)).value;
             c.job in s.jobs && c.rowNo in s.jobs[c.job].rows && c.attempts < s.jobs[c.job].rows[c.rowNo].attempts
    ensures LeavesRows(s, Do(h, s, step))
  {
    var c := ClaimHeld(WorkerAt(s, w)).value;
    match step
    case TouchJob(_) =>
    case ApplyRow(_, outcome) => if WorkerAt(s, w).Ready? { StaleResultIsFenced(s, w, c, WorkerAt(s, w).actor, outcome, 0); }
    case StoreRowFailure(_) => StaleResultIsFenced(s, w, c, "", Refused(Transient), 0);
    case StoreRetry(_, until) => StaleResultIsFenced(s, w, c, "", Refused(Transient), until);
    case _ => hide LeavesRows; OtherStepsLeaveRows(h, s, w, step);
  }

  /** A dry-run whose job was claimed again, cancelled or finished leaves the job alone. */
  lemma StaleValidatorIsFenced(h: Hashes, s: State, w: nat, step: Step)
    requires By(step, w) && WorkerAt(s, w).Planning? && WorkerAt(s, w).job in s.jobs
    requires var j := s.jobs[WorkerAt(s, w).job];
             WorkerAt(s, w).attempts < j.attempts || !j.status.Validating?
    ensures Do(h, s, step).jobs == s.jobs && Do(h, s, step).previews == s.previews
  {}

  // ---- conservation --------------------------------------------------------

  ghost predicate AddsUp(s: Summary) {
    s.total == s.invalid + s.same + s.pending + s.succeeded + s.needsApproval + s.failed + s.cancelled
  }

  ghost function Among(statuses: set<RowStatus>): Row -> int {
    (r: Row) => if r.status in statuses then 1 else 0
  }

  lemma AmongSplits(rows: Rows, st: RowStatus, others: set<RowStatus>)
    requires st !in others
    ensures Total(rows, Among({st} + others)) == Count(rows, st) + Total(rows, Among(others))
  {
    TotalAdd(rows, Has(st), Among(others), Among({st} + others));
  }

  lemma SettledCounts(rows: Rows)
    ensures Total(rows, Among({RowSucceeded, RowNeedsApproval, RowFailed, RowCancelled}))
         == Count(rows, RowSucceeded) + Count(rows, RowNeedsApproval) + Count(rows, RowFailed) + Count(rows, RowCancelled)
  {
    AmongSplits(rows, RowSucceeded, {RowNeedsApproval, RowFailed, RowCancelled});
    AmongSplits(rows, RowNeedsApproval, {RowFailed, RowCancelled});
    AmongSplits(rows, RowFailed, {RowCancelled});
    assert {RowSucceeded} + {RowNeedsApproval, RowFailed, RowCancelled} == {RowSucceeded, RowNeedsApproval, RowFailed, RowCancelled};
    assert {RowNeedsApproval} + {RowFailed, RowCancelled} == {RowNeedsApproval, RowFailed, RowCancelled};
    assert {RowFailed} + {RowCancelled} == {RowFailed, RowCancelled};
    TotalEqual(rows, rows, Among({RowCancelled}), Has(RowCancelled));
  }

  lemma PreviewedOutCounts(rows: Rows)
    ensures Total(rows, Among({RowInvalid, RowUnchanged})) == Count(rows, RowInvalid) + Count(rows, RowUnchanged)
  {
    TotalAdd(rows, Has(RowInvalid), Has(RowUnchanged), Among({RowInvalid, RowUnchanged}));
  }

  lemma FinalCounts(rows: Rows)
    ensures Total(rows, Any()) - Total(rows, Waiting())
         == Total(rows, Among({RowInvalid, RowUnchanged})) + Total(rows, Among({RowSucceeded, RowNeedsApproval, RowFailed, RowCancelled}))
  {
    var final := (r: Row) => if Pending(r) then 0 else 1;
    TotalAdd(rows, Among({RowInvalid, RowUnchanged}), Among({RowSucceeded, RowNeedsApproval, RowFailed, RowCancelled}), final);
    TotalAdd(rows, Waiting(), final, Any());
  }

  /** The eight counts always add up, whatever the rows are. */
  lemma EveryRowIsCounted(rows: Rows)
    ensures AddsUp(SummaryOf(rows)) && SummaryOf(rows).total == |rows|
  {
    FinalCounts(rows);
    SettledCounts(rows);
    PreviewedOutCounts(rows);
    TotalSize(rows, Any());
  }

  /** A row that left pending keeps its status for good. */
  lemma FinalCountsGrow(a: Rows, b: Rows, st: RowStatus)
    requires RowsStep(a, b) && !st.RowValid? && !st.RowApplying?
    ensures Count(a, st) <= Count(b, st)
    ensures st.RowInvalid? || st.RowUnchanged? ==> Count(a, st) == Count(b, st)
  {
    forall k | k in a ensures Has(st)(a[k]) <= Has(st)(b[k]) { assert RowStep(a[k], b[k]); }
    TotalMonotone(a, b, Has(st), Has(st));
    if st.RowInvalid? || st.RowUnchanged? {
      forall k | k in a ensures Has(st)(b[k]) <= Has(st)(a[k]) { assert RowStep(a[k], b[k]); }
      TotalMonotone(b, a, Has(st), Has(st));
    }
  }

  lemma PendingShrinks(a: Rows, b: Rows)
    requires RowsStep(a, b)
    ensures Total(b, Waiting()) <= Total(a, Waiting()) && Total(b, Any()) == Total(a, Any())
  {
    forall k | k in a ensures Waiting()(b[k]) <= Waiting()(a[k]) { assert RowStep(a[k], b[k]); }
    TotalMonotone(b, a, Waiting(), Waiting());
    TotalEqual(a, b, Any(), Any());
  }

  ghost predicate Conserves(p: Summary, q: Summary) {
    && q.total == p.total && q.invalid == p.invalid && q.same == p.same && q.pending <= p.pending
    && p.succeeded <= q.succeeded && p.needsApproval <= q.needsApproval
    && p.failed <= q.failed && p.cancelled <= q.cancelled
  }

  lemma RowsStepConserves(a: Rows, b: Rows)
    requires RowsStep(a, b)
    ensures Conserves(SummaryOf(a), SummaryOf(b))
  {
    PendingShrinks(a, b);
    FinalCountsGrow(a, b, RowInvalid);
    FinalCountsGrow(a, b, RowUnchanged);
    FinalCountsGrow(a, b, RowSucceeded);
    FinalCountsGrow(a, b, RowNeedsApproval);
    FinalCountsGrow(a, b, RowFailed);
    FinalCountsGrow(a, b, RowCancelled);
  }

  /** From preview on, rows are only moved out of pending: nothing is lost, added or previewed again. */
  lemma ConservationOfRows(h: Hashes, before: seq<Step>, after: seq<Step>, id: string)
    requires id in Exec(h, Start, before).jobs && !Unpreviewed(Exec(h, Start, before).jobs[id])
    ensures var s := Exec(h, Start, before);
            var t := Exec(h, s, after);
            && id in t.jobs
            && AddsUp(SummaryOf(t.jobs[id].rows))
            && Conserves(SummaryOf(s.jobs[id].rows), SummaryOf(t.jobs[id].rows))
  {
    var s := Exec(h, Start, before);
    var t := Exec(h, s, after);
    Later(h, before, after, id);
    RowsStepConserves(s.jobs[id].rows, t.jobs[id].rows);
    EveryRowIsCounted(t.jobs[id].rows);
  }

  /** The listing's counts and the pending test of Confirm and FinalizeJob agree. */
  lemma PendingIsCounted(rows: Rows)
    ensures SummaryOf(rows).pending > 0 <==> HasPending(rows)
    ensures SummaryOf(rows).pending == Count(rows, RowValid) + Count(rows, RowApplying)
  {
    if 0 < Total(rows, Waiting()) {
      var k := TotalWitness(rows, Waiting());
    }
    if HasPending(rows) {
      var k :| k in rows && Pending(rows[k]);
      TotalSplit(rows, k, Waiting());
      TotalNonNegative(rows - {k}, Waiting());
    }
    TotalAdd(rows, Has(RowValid), Has(RowApplying), Waiting());
  }
}
