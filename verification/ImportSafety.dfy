/**
  Safety of the import engine over every run: exactly-once apply, job/row
  consistency, what confirm pins, and which records can never change again.
*/
module ImportSafety {
  import opened Options
  import opened ImportModel
  import PreviewHash
  import opened ImportProtocol

  // ---- how one job may change ----------------------------------------------

  /** A row that is not waiting is final; a waiting row never turns into a previewed-out one. */
  ghost predicate RowStep(r: Row, q: Row) {
    && q.plan == r.plan
    && r.attempts <= q.attempts
    && (!Pending(r) ==> q == r)
    && (Pending(r) ==> !q.status.RowInvalid? && !q.status.RowUnchanged?)
    && (q.status.RowValid? ==> q == r)
  }

  ghost predicate RowsStep(a: Rows, b: Rows) {
    a.Keys == b.Keys && forall k :: k in a ==> RowStep(a[k], b[k])
  }

  /** What any number of steps by anybody may do to a job. */
  ghost predicate JobStep(a: Job, b: Job) {
    && a.attempts <= b.attempts
    && a.version <= b.version
    && (a.confirmedBy.Some? ==> b.confirmedBy == a.confirmedBy)
    && (!Unpreviewed(a) ==> !Unpreviewed(b) && b.previewHash == a.previewHash && b.previewAt == a.previewAt && RowsStep(a.rows, b.rows))
    && (Terminal(a) ==> b.status == a.status && b.rows == a.rows && b.finishedAt == a.finishedAt && b.confirmedBy == a.confirmedBy)
  }

  /** A job change that commits no Apply, saves no preview and confirms nothing. */
  ghost predicate Quiet(a: Job, b: Job) {
    && JobStep(a, b)
    && JobInv(b)
    && b.previewHash == a.previewHash
    && b.confirmedBy == a.confirmedBy
    && RowsStep(a.rows, b.rows)
    && (forall k :: k in a.rows ==> Applied(a.rows[k]) == Applied(b.rows[k]))
    && (b.status.PreviewReady? ==> a.status.PreviewReady?)
    && (Unpreviewed(b) ==> Unpreviewed(a))
  }

  /** What every step, and so every run, may do to the jobs that exist. */
  ghost predicate Progresses(s: State, t: State) {
    forall id :: id in s.jobs ==> id in t.jobs && JobStep(s.jobs[id], t.jobs[id])
  }

  // ---- the invariant -------------------------------------------------------

  ghost function EffectCount(effects: seq<Effect>, id: string, k: int): nat
    decreases |effects|
  {
    if effects == [] then 0
    else
      var e := effects[|effects| - 1];
      EffectCount(effects[..|effects| - 1], id, k) + (if e.job == id && e.rowNo == k then 1 else 0)
  }

  ghost predicate AppliedRow(s: State, id: string, k: int) {
    id in s.jobs && k in s.jobs[id].rows && Applied(s.jobs[id].rows[k])
  }

  /** Exactly one committed Apply behind every applied row, none behind any other. */
  ghost predicate ExactlyOnce(s: State) {
    forall id, k :: EffectCount(s.effects, id, k) == if AppliedRow(s, id, k) then 1 else 0
  }

  ghost predicate PreviewMatches(h: Hashes, j: Job, planned: seq<PlannedRow>) {
    && Insertable(planned) && Planned(planned)
    && j.previewHash == PreviewHash.Of(h, planned)
    && (forall k :: k in j.rows ==> exists i :: 0 <= i < |planned| && planned[i].rowNo == k)
    && (forall i :: 0 <= i < |planned| ==> planned[i].rowNo in j.rows && FromPlan(planned[i], j.rows[planned[i].rowNo]))
  }

  /** A stored row carries its plan, and only a row planned valid was ever touched. */
  ghost predicate FromPlan(p: PlannedRow, r: Row) {
    r.plan == p.plan && (!p.status.RowValid? ==> r.status == p.status) && (p.status.RowValid? ==> !r.status.RowInvalid? && !r.status.RowUnchanged?)
  }

  ghost predicate PreviewInv(h: Hashes, s: State) {
    && (forall id :: id in s.previews ==> id in s.jobs && !Unpreviewed(s.jobs[id]) && PreviewMatches(h, s.jobs[id], s.previews[id]))
    && (forall id :: id in s.jobs && id !in s.previews ==>
          s.jobs[id].rows == map[] && s.jobs[id].confirmedBy.None? && !s.jobs[id].status.PreviewReady?)
  }

  ghost predicate ConfirmInv(s: State) {
    && (forall i :: 0 <= i < |s.confirmations| ==> Accepted(s, s.confirmations[i]))
    && (forall i, j :: 0 <= i < j < |s.confirmations| ==> s.confirmations[i].job != s.confirmations[j].job)
    && (forall id :: id in s.jobs && s.jobs[id].confirmedBy.Some? ==> ConfirmationOf(s, id) in s.confirmations)
  }

  ghost predicate Accepted(s: State, c: Confirmation) {
    c.job in s.jobs && s.jobs[c.job].confirmedBy == Some(c.actor) && s.jobs[c.job].previewHash == c.hash
  }

  ghost function ConfirmationOf(s: State, id: string): Confirmation
    requires id in s.jobs && s.jobs[id].confirmedBy.Some?
  {
    Confirmation(id, s.jobs[id].confirmedBy.value, s.jobs[id].previewHash)
  }

  ghost predicate ClaimOk(s: State, c: Claim) {
    && c.job in s.jobs && c.rowNo in s.jobs[c.job].rows
    && var r := s.jobs[c.job].rows[c.rowNo];
       c.plan == r.plan && 0 < c.attempts <= r.attempts
  }

  ghost predicate WorkerOk(s: State, pc: Worker) {
    match pc
    case Idle => true
    case Planning(id, attempts) => id in s.jobs && attempts <= s.jobs[id].attempts
    case Leased(c) => ClaimOk(s, c)
    case Ready(c, actor) => ClaimOk(s, c) && s.jobs[c.job].confirmedBy == Some(actor)
    case Failing(c, _) => ClaimOk(s, c)
    case Retrying(c) => ClaimOk(s, c)
    case Finalizing(id, _) => id in s.jobs
    case Stopping(id) => id in s.jobs
    case StopMarking(id) => id in s.jobs
  }

  ghost predicate WorkersOk(s: State) {
    forall w :: w in s.workers ==> WorkerOk(s, s.workers[w])
  }

  ghost predicate JobsOk(s: State) {
    forall id :: id in s.jobs ==> JobInv(s.jobs[id])
  }

  ghost predicate EffectOk(s: State, e: Effect) {
    && e.job in s.jobs && e.rowNo in s.jobs[e.job].rows
    && e.plan == s.jobs[e.job].rows[e.rowNo].plan
    && s.jobs[e.job].confirmedBy == Some(e.actor)
    && s.jobs[e.job].rows[e.rowNo].status == if e.approval then RowNeedsApproval else RowSucceeded
  }

  ghost predicate EffectsOk(s: State) {
    forall i :: 0 <= i < |s.effects| ==> EffectOk(s, s.effects[i])
  }

  ghost predicate Inv(h: Hashes, s: State) {
    JobsOk(s) && ExactlyOnce(s) && PreviewInv(h, s) && ConfirmInv(s) && WorkersOk(s) && EffectsOk(s)
  }

  // ---- what keeps it -------------------------------------------------------

  lemma GoKeeps(h: Hashes, s: State, w: nat, pc: Worker)
    requires Inv(h, s) && WorkerOk(s, pc)
    ensures Inv(h, Go(s, w, pc))
  {
    var t := Go(s, w, pc);
    assert t.jobs == s.jobs;
    forall id, k ensures AppliedRow(t, id, k) == AppliedRow(s, id, k) {}
    forall v | v in t.workers ensures WorkerOk(t, t.workers[v]) {
      var p := if v == w then pc else s.workers[v];
      assert WorkerOk(s, p);
    }
    forall i | 0 <= i < |t.confirmations| ensures Accepted(t, t.confirmations[i]) {
      assert Accepted(s, s.confirmations[i]);
    }
    forall i | 0 <= i < |t.effects| ensures EffectOk(t, t.effects[i]) {
      assert EffectOk(s, s.effects[i]);
    }
    forall id | id in t.jobs && t.jobs[id].confirmedBy.Some? ensures ConfirmationOf(t, id) in t.confirmations {
      assert ConfirmationOf(s, id) in s.confirmations;
    }
  }

  /** Only job `id` changes, and only forward. */
  ghost predicate Moves(s: State, t: State, id: string) {
    && id in t.jobs && t.jobs == s.jobs[id := t.jobs[id]]
    && (id in s.jobs ==> Advances(s.jobs[id], t.jobs[id]))
  }

  ghost predicate Advances(a: Job, b: Job) {
    && JobStep(a, b)
    && (a.confirmedBy.Some? ==> b.previewHash == a.previewHash)
    && (RowsStep(a.rows, b.rows) || a.rows == map[])
  }

  lemma WorkersFollow(s: State, t: State, id: string)
    requires WorkersOk(s) && t.workers == s.workers && Moves(s, t, id)
    ensures WorkersOk(t)
  {
    forall v | v in t.workers ensures WorkerOk(t, t.workers[v]) {
      assert WorkerOk(s, s.workers[v]);
    }
  }

  lemma ConfirmFollows(s: State, t: State, id: string)
    requires ConfirmInv(s) && Moves(s, t, id) && t.confirmations == s.confirmations
    requires t.jobs[id].confirmedBy.Some? ==> id in s.jobs && s.jobs[id].confirmedBy.Some?
    ensures ConfirmInv(t)
  {
    forall i | 0 <= i < |t.confirmations| ensures Accepted(t, t.confirmations[i]) {
      assert Accepted(s, s.confirmations[i]);
    }
    forall x | x in t.jobs && t.jobs[x].confirmedBy.Some? ensures ConfirmationOf(t, x) in t.confirmations {
      assert ConfirmationOf(s, x) in s.confirmations;
    }
  }

  lemma EffectsFollow(s: State, t: State, id: string)
    requires EffectsOk(s) && Moves(s, t, id) && t.effects == s.effects
    ensures EffectsOk(t)
  {
    forall i | 0 <= i < |t.effects| ensures EffectOk(t, t.effects[i]) {
      assert EffectOk(s, s.effects[i]);
    }
  }

  lemma JobsFollow(s: State, t: State, id: string)
    requires JobsOk(s) && Moves(s, t, id) && JobInv(t.jobs[id])
    ensures JobsOk(t)
  {}

  lemma QuietExactlyOnce(s: State, id: string, j: Job)
    requires ExactlyOnce(s) && id in s.jobs && Quiet(s.jobs[id], j)
    ensures ExactlyOnce(Put(s, id, j))
  {
    var t := Put(s, id, j);
    forall x, k ensures AppliedRow(t, x, k) == AppliedRow(s, x, k) {}
  }

  lemma QuietPreview(h: Hashes, s: State, id: string, j: Job)
    requires PreviewInv(h, s) && id in s.jobs && Quiet(s.jobs[id], j)
    ensures PreviewInv(h, Put(s, id, j))
  {
    if id in s.previews { MatchFollows(h, s.jobs[id], j, s.previews[id]); }
  }

  lemma QuietPutKeeps(h: Hashes, s: State, id: string, j: Job)
    requires Inv(h, s) && id in s.jobs && Quiet(s.jobs[id], j)
    ensures Inv(h, Put(s, id, j))
  {
    var t := Put(s, id, j);
    QuietExactlyOnce(s, id, j);
    QuietPreview(h, s, id, j);
    JobsFollow(s, t, id);
    WorkersFollow(s, t, id);
    ConfirmFollows(s, t, id);
    EffectsFollow(s, t, id);
  }

  lemma MatchFollows(h: Hashes, a: Job, b: Job, planned: seq<PlannedRow>)
    requires PreviewMatches(h, a, planned) && a.previewHash == b.previewHash && RowsStep(a.rows, b.rows)
    ensures PreviewMatches(h, b, planned)
  {
    forall i | 0 <= i < |planned| ensures planned[i].rowNo in b.rows && FromPlan(planned[i], b.rows[planned[i].rowNo]) {
      var k := planned[i].rowNo;
      assert k in a.rows && FromPlan(planned[i], a.rows[k]) && RowStep(a.rows[k], b.rows[k]);
    }
  }

  // ---- every statement is quiet, saves a preview, confirms or commits ----

  lemma StopRowsSteps(rows: Rows)
    ensures RowsStep(rows, StopRows(rows))
    ensures !HasValid(StopRows(rows))
    ensures forall k :: k in rows ==> Applied(rows[k]) == Applied(StopRows(rows)[k])
    ensures HasApplying(StopRows(rows)) <==> HasApplying(rows)
    ensures HasPending(StopRows(rows)) <==> HasApplying(rows)
  {
    if HasApplying(rows) {
      var k :| k in rows && rows[k].status.RowApplying?;
      assert k in StopRows(rows) && StopRows(rows)[k].status.RowApplying?;
    }
  }

  lemma DryRunQuiet(j: Job, now: int, attempts: nat, failure: PlanFailure, backoff: nat)
    requires JobInv(j)
    ensures CanClaimValidation(j, now) ==> Quiet(j, ClaimValidation(j, now))
    ensures Quiet(j, FailValidation(j, attempts, failure, now, backoff))
  {}

  lemma CancelQuiet(j: Job, now: int)
    requires JobInv(j)
    ensures Quiet(j, Cancel(j, now))
  {
    StopRowsSteps(j.rows);
    if Terminal(j) {
      assert Cancel(j, now) == j;
    }
  }

  lemma StopQuiet(j: Job, code: string)
    requires JobInv(j)
    ensures Quiet(j, j.(rows := StopRows(j.rows)))
    ensures Quiet(j, StopJob(j, code))
  {
    StopRowsSteps(j.rows);
    if Terminal(j) {
      assert StopRows(j.rows) == j.rows by {
        forall k | k in j.rows ensures !j.rows[k].status.RowValid? {
          assert !Pending(j.rows[k]);
        }
      }
    }
  }

  lemma LeaseQuiet(j: Job, k: int, now: int)
    requires JobInv(j) && CanClaimRow(j, k, now)
    ensures Quiet(j, j.(rows := j.rows[k := LeaseRow(j.rows[k], now)]))
  {
    assert RowInv(j, j.rows[k]);
    assert Pending(j.rows[k]);
  }

  lemma HeldOpen(j: Job, k: int, attempts: nat)
    requires JobInv(j) && HoldsLease(j.rows, k, attempts)
    ensures !Terminal(j) && j.confirmedBy.Some?
  {
    assert RowInv(j, j.rows[k]) && Pending(j.rows[k]);
  }

  lemma RowResultQuiet(j: Job, k: int, attempts: nat, until: int)
    requires JobInv(j)
    ensures Quiet(j, j.(rows := FinishRow(j.rows, k, attempts, RowFailed)))
    ensures Quiet(j, j.(rows := RetryRow(j.rows, k, attempts, until)))
  {
    if HoldsLease(j.rows, k, attempts) { HeldOpen(j, k, attempts); }
  }

  lemma CloseQuiet(j: Job, now: int)
    requires JobInv(j)
    ensures Quiet(j, FinalizeJob(j, now))
    ensures Quiet(j, MarkApplying(j))
  {}

  ghost predicate SameApplied(s: State, t: State, id: string) {
    forall k :: AppliedRow(t, id, k) == AppliedRow(s, id, k)
  }

  lemma SameCounts(s: State, t: State, id: string)
    requires ExactlyOnce(s) && t.effects == s.effects && Moves(s, t, id) && SameApplied(s, t, id)
    ensures ExactlyOnce(t)
  {
    forall x, k ensures EffectCount(t.effects, x, k) == if AppliedRow(t, x, k) then 1 else 0 {
      assert EffectCount(s.effects, x, k) == if AppliedRow(s, x, k) then 1 else 0;
      if x != id { assert AppliedRow(t, x, k) == AppliedRow(s, x, k); }
    }
  }

  lemma UploadKeeps(h: Hashes, s: State, id: string, now: int)
    requires Inv(h, s) && id !in s.jobs
    ensures Inv(h, Put(s, id, NewJob(now)))
  {
    var t := Put(s, id, NewJob(now));
    SameCounts(s, t, id);
    JobsFollow(s, t, id);
    WorkersFollow(s, t, id);
    ConfirmFollows(s, t, id);
    EffectsFollow(s, t, id);
  }

  lemma {:induction false} RowsOfPlanned(planned: seq<PlannedRow>)
    requires Insertable(planned)
    ensures forall i :: 0 <= i < |planned| ==>
              && planned[i].rowNo in RowsOf(planned)
              && RowsOf(planned)[planned[i].rowNo] == Row(planned[i].plan, planned[i].status, 0, None)
    ensures forall k :: k in RowsOf(planned) ==> exists i :: 0 <= i < |planned| && planned[i].rowNo == k
    decreases |planned|
  {
    if planned != [] {
      var n := |planned| - 1;
      var before := planned[..n];
      RowsOfPlanned(before);
      forall i | 0 <= i < |planned|
        ensures planned[i].rowNo in RowsOf(planned)
             && RowsOf(planned)[planned[i].rowNo] == Row(planned[i].plan, planned[i].status, 0, None)
      {
        if i < n { assert before[i] == planned[i]; }
      }
      forall k | k in RowsOf(planned) ensures exists i :: 0 <= i < |planned| && planned[i].rowNo == k {
        if k != planned[n].rowNo {
          var i :| 0 <= i < n && before[i].rowNo == k;
          assert planned[i].rowNo == k;
        }
      }
    }
  }

  lemma SavedJob(h: Hashes, j: Job, attempts: nat, planned: seq<PlannedRow>, now: int)
    requires JobInv(j) && HoldsValidation(j, attempts) && Insertable(planned) && Planned(planned)
    ensures var b := SavePreview(j, attempts, planned, PreviewHash.Of(h, planned), now);
            JobInv(b) && JobStep(j, b) && PreviewMatches(h, b, planned)
            && forall k :: k in b.rows ==> !Applied(b.rows[k])
  {
    RowsOfPlanned(planned);
    var b := SavePreview(j, attempts, planned, PreviewHash.Of(h, planned), now);
    forall k | k in b.rows ensures RowInv(b, b.rows[k]) && !Applied(b.rows[k]) {
      var i :| 0 <= i < |planned| && planned[i].rowNo == k;
      assert b.rows[k] == Row(planned[i].plan, planned[i].status, 0, None);
    }
  }

  lemma NewPreview(h: Hashes, s: State, t: State, id: string, planned: seq<PlannedRow>)
    requires PreviewInv(h, s) && id in s.jobs && Unpreviewed(s.jobs[id]) && id in t.jobs
    requires t.jobs == s.jobs[id := t.jobs[id]] && t.previews == s.previews[id := planned]
    requires !Unpreviewed(t.jobs[id]) && PreviewMatches(h, t.jobs[id], planned)
    ensures PreviewInv(h, t)
  {}

  lemma StorePreviewKeeps(h: Hashes, s: State, id: string, attempts: nat, planned: seq<PlannedRow>, now: int)
    requires Inv(h, s) && id in s.jobs && Planned(planned)
    ensures Inv(h, StorePreviewBy(h, s, id, attempts, planned, now))
  {
    var j, t := s.jobs[id], StorePreviewBy(h, s, id, attempts, planned, now);
    if HoldsValidation(j, attempts) && Insertable(planned) {
      SavedJob(h, j, attempts, planned, now);
      SameCounts(s, t, id);
      JobsFollow(s, t, id);
      WorkersFollow(s, t, id);
      ConfirmFollows(s, t, id);
      EffectsFollow(s, t, id);
      NewPreview(h, s, t, id, planned);
    }
  }

  lemma ConfirmedJob(a: Job, actor: string, input: ConfirmInput, now: int, enabled: bool, dup: bool)
    requires JobInv(a) && !IsReplay(a, actor, input) && Confirm(a, actor, input, now, enabled, dup).Ok?
    ensures var b := Confirm(a, actor, input, now, enabled, dup).value;
            JobInv(b) && JobStep(a, b) && a.confirmedBy.None? && a.status.PreviewReady? && b.rows == a.rows
            && b.previewHash == a.previewHash == input.previewHash && b.confirmedBy == Some(actor)
  {
    var b := Confirm(a, actor, input, now, enabled, dup).value;
    forall k | k in b.rows ensures RowInv(b, b.rows[k]) { assert RowInv(a, a.rows[k]); }
  }

  lemma ConfirmPreview(h: Hashes, s: State, t: State, id: string)
    requires PreviewInv(h, s) && id in s.jobs && s.jobs[id].status.PreviewReady? && id in t.jobs
    requires t.jobs == s.jobs[id := t.jobs[id]] && t.previews == s.previews
    requires !Unpreviewed(t.jobs[id]) && t.jobs[id].rows == s.jobs[id].rows && t.jobs[id].previewHash == s.jobs[id].previewHash
    ensures PreviewInv(h, t)
  {}

  lemma ConfirmKeeps(h: Hashes, s: State, id: string, actor: string, input: ConfirmInput, now: int, enabled: bool, dup: bool)
    requires Inv(h, s) && id in s.jobs
    ensures Inv(h, ConfirmBy(s, id, actor, input, now, enabled, dup))
  {
    var a, t := s.jobs[id], ConfirmBy(s, id, actor, input, now, enabled, dup);
    var answer := Confirm(a, actor, input, now, enabled, dup);
    if answer.Ok? && !IsReplay(a, actor, input) {
      ConfirmedJob(a, actor, input, now, enabled, dup);
      SameCounts(s, t, id);
      JobsFollow(s, t, id);
      WorkersFollow(s, t, id);
      EffectsFollow(s, t, id);
      ConfirmPreview(h, s, t, id);
      NewConfirmation(s, t, id, actor, input.previewHash);
    }
  }

  lemma NewConfirmation(s: State, t: State, id: string, actor: string, hash: string)
    requires ConfirmInv(s) && Moves(s, t, id)
    requires id in s.jobs && s.jobs[id].confirmedBy.None?
    requires t.jobs[id].confirmedBy == Some(actor) && t.jobs[id].previewHash == hash
    requires t.confirmations == s.confirmations + [Confirmation(id, actor, hash)]
    ensures ConfirmInv(t)
  {
    forall i | 0 <= i < |t.confirmations| ensures Accepted(t, t.confirmations[i]) {
      if i < |s.confirmations| { assert Accepted(s, s.confirmations[i]); }
    }
    forall i, j | 0 <= i < j < |t.confirmations| ensures t.confirmations[i].job != t.confirmations[j].job {
      assert Accepted(s, s.confirmations[i]);
    }
    forall x | x in t.jobs && t.jobs[x].confirmedBy.Some? ensures ConfirmationOf(t, x) in t.confirmations {
      if x == id {
        assert t.confirmations[|s.confirmations|] == ConfirmationOf(t, id);
      } else {
        assert ConfirmationOf(s, x) in s.confirmations;
      }
    }
  }

  lemma CommittedJob(a: Job, k: int, attempts: nat, approval: bool)
    requires JobInv(a) && HoldsLease(a.rows, k, attempts)
    ensures var b := a.(rows := FinishRow(a.rows, k, attempts, if approval then RowNeedsApproval else RowSucceeded));
            JobInv(b) && JobStep(a, b) && RowsStep(a.rows, b.rows) && Applied(b.rows[k]) && !Applied(a.rows[k])
  {
    HeldOpen(a, k, attempts);
    var b := a.(rows := FinishRow(a.rows, k, attempts, if approval then RowNeedsApproval else RowSucceeded));
    forall x | x in b.rows ensures RowInv(b, b.rows[x]) { assert RowInv(a, a.rows[x]); }
  }

  lemma CommitPreview(h: Hashes, s: State, t: State, id: string)
    requires PreviewInv(h, s) && id in s.jobs && s.jobs[id].rows != map[] && id in t.jobs
    requires t.jobs == s.jobs[id := t.jobs[id]] && t.previews == s.previews
    requires !Unpreviewed(t.jobs[id]) && RowsStep(s.jobs[id].rows, t.jobs[id].rows) && t.jobs[id].previewHash == s.jobs[id].previewHash
    ensures PreviewInv(h, t)
  {
    MatchFollows(h, s.jobs[id], t.jobs[id], s.previews[id]);
  }

  lemma NewEffect(s: State, t: State, c: Claim, actor: string, approval: bool)
    requires EffectsOk(s) && Moves(s, t, c.job) && t.effects == s.effects + [Effect(c.job, c.rowNo, actor, c.plan, approval)]
    requires EffectOk(t, Effect(c.job, c.rowNo, actor, c.plan, approval))
    ensures EffectsOk(t)
  {
    forall i | 0 <= i < |t.effects| ensures EffectOk(t, t.effects[i]) {
      if i < |s.effects| { assert EffectOk(s, s.effects[i]); }
    }
  }

  lemma CommitKeeps(h: Hashes, s: State, c: Claim, actor: string, approval: bool)
    requires Inv(h, s) && ClaimOk(s, c) && s.jobs[c.job].confirmedBy == Some(actor)
    requires HoldsLease(s.jobs[c.job].rows, c.rowNo, c.attempts)
    ensures Inv(h, Commit(s, c, actor, approval))
  {
    var t := Commit(s, c, actor, approval);
    CommittedJob(s.jobs[c.job], c.rowNo, c.attempts, approval);
    CommitPreview(h, s, t, c.job);
    WorkersFollow(s, t, c.job);
    ConfirmFollows(s, t, c.job);
    JobsFollow(s, t, c.job);
    CommitCounts(s, t, c, actor, approval);
    NewEffect(s, t, c, actor, approval);
  }

  lemma CommitCounts(s: State, t: State, c: Claim, actor: string, approval: bool)
    requires ExactlyOnce(s) && !AppliedRow(s, c.job, c.rowNo) && AppliedRow(t, c.job, c.rowNo)
    requires t.effects == s.effects + [Effect(c.job, c.rowNo, actor, c.plan, approval)]
    requires Moves(s, t, c.job) && c.job in s.jobs && t.jobs[c.job].rows == s.jobs[c.job].rows[c.rowNo := t.jobs[c.job].rows[c.rowNo]]
    ensures ExactlyOnce(t)
  {
    assert t.effects[..|t.effects| - 1] == s.effects;
    forall id, k ensures EffectCount(t.effects, id, k) == if AppliedRow(t, id, k) then 1 else 0 {
      assert EffectCount(s.effects, id, k) == if AppliedRow(s, id, k) then 1 else 0;
      if (id, k) != (c.job, c.rowNo) { assert AppliedRow(t, id, k) == AppliedRow(s, id, k); }
    }
  }

  lemma CommitClaim(h: Hashes, s: State, w: nat, c: Claim, actor: string, approval: bool, pc: Worker)
    requires Inv(h, s) && ClaimOk(s, c) && s.jobs[c.job].confirmedBy == Some(actor)
    requires HoldsLease(s.jobs[c.job].rows, c.rowNo, c.attempts)
    requires pc in {Finalizing(c.job, false), Failing(c, false), Retrying(c)}
    ensures Inv(h, Go(Commit(s, c, actor, approval), w, pc))
  {
    hide Inv;
    CommitKeeps(h, s, c, actor, approval);
    GoKeeps(h, Commit(s, c, actor, approval), w, pc);
  }

  lemma CommitProgresses(s: State, c: Claim, actor: string, approval: bool)
    requires JobsOk(s) && c.job in s.jobs && HoldsLease(s.jobs[c.job].rows, c.rowNo, c.attempts)
    ensures Progresses(s, Commit(s, c, actor, approval))
  {
    CommittedJob(s.jobs[c.job], c.rowNo, c.attempts, approval);
  }

  lemma RefusedKeeps(h: Hashes, s: State, w: nat, c: Claim)
    requires Inv(h, s) && ClaimOk(s, c)
    ensures Inv(h, Go(s, w, AfterTransient(c))) && Inv(h, Go(s, w, Idle))
    ensures Inv(h, Go(s, w, Failing(c, true))) && Inv(h, Go(s, w, Failing(c, false)))
  {
    hide Inv;
    GoKeeps(h, s, w, AfterTransient(c));
    GoKeeps(h, s, w, Idle);
    GoKeeps(h, s, w, Failing(c, true));
    GoKeeps(h, s, w, Failing(c, false));
  }

  lemma ApplyKeeps(h: Hashes, s: State, w: nat, c: Claim, actor: string, outcome: TxOutcome)
    requires Inv(h, s) && ClaimOk(s, c) && s.jobs[c.job].confirmedBy == Some(actor)
    ensures Inv(h, ApplyBy(s, w, c, actor, outcome))
  {
    hide Inv;
    if outcome.Refused? || !HoldsLease(s.jobs[c.job].rows, c.rowNo, c.attempts) {
      RefusedKeeps(h, s, w, c);
    }
    if !outcome.Refused? {
      if HoldsLease(s.jobs[c.job].rows, c.rowNo, c.attempts) {
        CommitClaim(h, s, w, c, actor, outcome.needsApproval, if outcome.Committed? then Finalizing(c.job, false) else AfterTransient(c));
      }
    }
  }

  lemma ApplyProgresses(s: State, w: nat, c: Claim, actor: string, outcome: TxOutcome)
    requires JobsOk(s) && c.job in s.jobs
    ensures Progresses(s, ApplyBy(s, w, c, actor, outcome))
  {
    if HoldsLease(s.jobs[c.job].rows, c.rowNo, c.attempts) && !outcome.Refused? {
      CommitProgresses(s, c, actor, outcome.needsApproval);
    }
  }

  lemma JobFact(h: Hashes, s: State, id: string)
    requires Inv(h, s) && id in s.jobs
    ensures JobInv(s.jobs[id])
  {}

  lemma WorkerFact(h: Hashes, s: State, w: nat)
    requires Inv(h, s)
    ensures WorkerOk(s, WorkerAt(s, w))
  {}

  lemma JobsFact(h: Hashes, s: State)
    requires Inv(h, s)
    ensures JobsOk(s)
  {}

  lemma QuietStep(h: Hashes, s: State, w: nat, id: string, j: Job, pc: Worker)
    requires Inv(h, s) && id in s.jobs && Quiet(s.jobs[id], j) && WorkerOk(Put(s, id, j), pc)
    ensures Inv(h, Go(Put(s, id, j), w, pc)) && Progresses(s, Go(Put(s, id, j), w, pc))
  {
    hide Inv;
    QuietPutKeeps(h, s, id, j);
    GoKeeps(h, Put(s, id, j), w, pc);
  }

  lemma ClaimDryRunKeeps(h: Hashes, s: State, w: nat, id: string, now: int)
    requires Inv(h, s)
    ensures Inv(h, Do(h, s, ClaimDryRun(w, id, now))) && Progresses(s, Do(h, s, ClaimDryRun(w, id, now)))
  {
    hide Inv, Progresses;
    SelfProgresses(s);
    JobsFact(h, s);
    if WorkerAt(s, w).Idle? && id in s.jobs && CanClaimValidation(s.jobs[id], now) {
      DryRunQuiet(s.jobs[id], now, 0, BadFile, 0);
      var j := ClaimValidation(s.jobs[id], now);
      QuietStep(h, s, w, id, j, Planning(id, j.attempts));
    }
  }

  lemma StoreFailureKeeps(h: Hashes, s: State, w: nat, failure: PlanFailure, now: int, backoff: nat)
    requires Inv(h, s)
    ensures Inv(h, Do(h, s, StoreFailure(w, failure, now, backoff))) && Progresses(s, Do(h, s, StoreFailure(w, failure, now, backoff)))
  {
    hide Inv, Progresses;
    SelfProgresses(s);
    JobsFact(h, s);
    WorkerFact(h, s, w);
    var pc := WorkerAt(s, w);
    if pc.Planning? && pc.job in s.jobs {
      DryRunQuiet(s.jobs[pc.job], now, pc.attempts, failure, backoff);
      QuietStep(h, s, w, pc.job, FailValidation(s.jobs[pc.job], pc.attempts, failure, now, backoff), Idle);
    }
  }

  lemma StorePreviewStepKeeps(h: Hashes, s: State, w: nat, planned: seq<PlannedRow>, now: int)
    requires Inv(h, s)
    ensures Inv(h, Do(h, s, StorePreview(w, planned, now)))
  {
    hide Inv;
    var pc := WorkerAt(s, w);
    if pc.Planning? && pc.job in s.jobs && Planned(planned) {
      GoKeeps(h, s, w, Idle);
      StorePreviewKeeps(h, Go(s, w, Idle), pc.job, pc.attempts, planned, now);
    }
  }

  lemma StorePreviewProgresses(h: Hashes, s: State, w: nat, planned: seq<PlannedRow>, now: int)
    requires JobsOk(s)
    ensures Progresses(s, Do(h, s, StorePreview(w, planned, now)))
  {
    hide RowsOf, Insertable, RowInv;
    var pc := WorkerAt(s, w);
    if pc.Planning? && pc.job in s.jobs && Planned(planned) && HoldsValidation(s.jobs[pc.job], pc.attempts) && Insertable(planned) {
      SavedJob(h, s.jobs[pc.job], pc.attempts, planned, now);
    }
  }

  lemma UserConfirmProgresses(h: Hashes, s: State, step: Step)
    requires JobsOk(s) && step.UserConfirm?
    ensures Progresses(s, Do(h, s, step))
  {
    if step.id in s.jobs {
      var a := s.jobs[step.id];
      if Confirm(a, step.actor, step.input, step.now, step.enabled, step.duplicate).Ok? && !IsReplay(a, step.actor, step.input) {
        ConfirmedJob(a, step.actor, step.input, step.now, step.enabled, step.duplicate);
      }
    }
  }

  lemma UserCancelProgresses(h: Hashes, s: State, step: Step)
    requires JobsOk(s) && step.UserCancel?
    ensures Progresses(s, Do(h, s, step))
  {
    if step.id in s.jobs { CancelQuiet(s.jobs[step.id], step.now); }
  }

  lemma LeaseStepKeeps(h: Hashes, s: State, w: nat, id: string, k: int, now: int)
    requires Inv(h, s)
    ensures Inv(h, Do(h, s, LeaseNext(w, id, k, now))) && Progresses(s, Do(h, s, LeaseNext(w, id, k, now)))
  {
    hide Inv, Progresses;
    SelfProgresses(s);
    JobsFact(h, s);
    if WorkerAt(s, w).Idle? && id in s.jobs && CanClaimRow(s.jobs[id], k, now) {
      LeaseQuiet(s.jobs[id], k, now);
      var r := LeaseRow(s.jobs[id].rows[k], now);
      QuietStep(h, s, w, id, s.jobs[id].(rows := s.jobs[id].rows[k := r]), Leased(Claim(id, k, r.attempts, r.plan)));
    }
  }

  lemma TouchStepKeeps(h: Hashes, s: State, w: nat)
    requires Inv(h, s)
    ensures Inv(h, Do(h, s, TouchJob(w))) && Progresses(s, Do(h, s, TouchJob(w)))
  {
    hide Inv, Progresses;
    SelfProgresses(s);
    JobsFact(h, s);
    WorkerFact(h, s, w);
    var pc := WorkerAt(s, w);
    if pc.Leased? && pc.claim.job in s.jobs {
      CloseQuiet(s.jobs[pc.claim.job], 0);
      var j := MarkApplying(s.jobs[pc.claim.job]);
      QuietStep(h, s, w, pc.claim.job, j, if j.confirmedBy.Some? then Ready(pc.claim, j.confirmedBy.value) else Idle);
    }
  }

  lemma RowResultStepKeeps(h: Hashes, s: State, step: Step)
    requires Inv(h, s) && (step.StoreRowFailure? || step.StoreRetry?)
    ensures Inv(h, Do(h, s, step)) && Progresses(s, Do(h, s, step))
  {
    hide Inv, Progresses;
    SelfProgresses(s);
    JobsFact(h, s);
    WorkerFact(h, s, step.w);
    var pc := WorkerAt(s, step.w);
    if (step.StoreRowFailure? && pc.Failing?) || (step.StoreRetry? && pc.Retrying?) {
      var j, c := s.jobs[pc.claim.job], pc.claim;
      RowResultQuiet(j, c.rowNo, c.attempts, if step.StoreRetry? then step.until else 0);
      if step.StoreRowFailure? {
        QuietStep(h, s, step.w, c.job, j.(rows := FinishRow(j.rows, c.rowNo, c.attempts, RowFailed)), Finalizing(c.job, pc.stop));
      } else {
        QuietStep(h, s, step.w, c.job, j.(rows := RetryRow(j.rows, c.rowNo, c.attempts, step.until)), Idle);
      }
    }
  }

  lemma CloseJobKeeps(h: Hashes, s: State, w: nat, now: int)
    requires Inv(h, s)
    ensures Inv(h, Do(h, s, CloseJob(w, now))) && Progresses(s, Do(h, s, CloseJob(w, now)))
  {
    hide Inv, Progresses;
    SelfProgresses(s);
    JobsFact(h, s);
    WorkerFact(h, s, w);
    var pc := WorkerAt(s, w);
    if pc.Finalizing? && pc.job in s.jobs {
      CloseQuiet(s.jobs[pc.job], now);
      QuietStep(h, s, w, pc.job, FinalizeJob(s.jobs[pc.job], now), if pc.stop then Stopping(pc.job) else Idle);
    }
  }

  lemma StopWaitingKeeps(h: Hashes, s: State, w: nat)
    requires Inv(h, s)
    ensures Inv(h, Do(h, s, StopWaiting(w))) && Progresses(s, Do(h, s, StopWaiting(w)))
  {
    hide Inv, Progresses;
    SelfProgresses(s);
    JobsFact(h, s);
    WorkerFact(h, s, w);
    var pc := WorkerAt(s, w);
    if pc.Stopping? && pc.job in s.jobs {
      StopQuiet(s.jobs[pc.job], "");
      QuietStep(h, s, w, pc.job, s.jobs[pc.job].(rows := StopRows(s.jobs[pc.job].rows)), StopMarking(pc.job));
    }
  }

  lemma MarkStoppedKeeps(h: Hashes, s: State, w: nat)
    requires Inv(h, s)
    ensures Inv(h, Do(h, s, MarkStopped(w))) && Progresses(s, Do(h, s, MarkStopped(w)))
  {
    hide Inv, Progresses;
    SelfProgresses(s);
    JobsFact(h, s);
    WorkerFact(h, s, w);
    var pc := WorkerAt(s, w);
    if pc.StopMarking? && pc.job in s.jobs {
      StopQuiet(s.jobs[pc.job], "permission_revoked");
      QuietStep(h, s, w, pc.job, StopJob(s.jobs[pc.job], "permission_revoked"), Finalizing(pc.job, false));
    }
  }

  lemma UserStepKeeps(h: Hashes, s: State, step: Step)
    requires Inv(h, s) && (step.Upload? || step.UserConfirm? || step.UserCancel?)
    ensures Inv(h, Do(h, s, step))
  {
    hide Inv;
    JobsFact(h, s);
    match step
    case Upload(id, now) => if id !in s.jobs { UploadKeeps(h, s, id, now); }
    case UserConfirm(id, actor, input, now, enabled, duplicate) =>
      if id in s.jobs { ConfirmKeeps(h, s, id, actor, input, now, enabled, duplicate); }
    case UserCancel(id, now) =>
      if id in s.jobs {
        CancelQuiet(s.jobs[id], now);
        QuietPutKeeps(h, s, id, Cancel(s.jobs[id], now));
      }
  }

  lemma StepKeeps(h: Hashes, s: State, step: Step)
    requires Inv(h, s)
    ensures Inv(h, Do(h, s, step)) && Progresses(s, Do(h, s, step))
  {
    hide Inv;
    JobsFact(h, s);
    match step
    case Upload(_, _) => UserStepKeeps(h, s, step);
    case UserConfirm(_, _, _, _, _, _) => UserStepKeeps(h, s, step); UserConfirmProgresses(h, s, step);
    case UserCancel(_, _) => UserStepKeeps(h, s, step); UserCancelProgresses(h, s, step);
    case ClaimDryRun(w, id, now) => ClaimDryRunKeeps(h, s, w, id, now);
    case StorePreview(w, planned, now) =>
      StorePreviewStepKeeps(h, s, w, planned, now);
      StorePreviewProgresses(h, s, w, planned, now);
    case StoreFailure(w, failure, now, backoff) => StoreFailureKeeps(h, s, w, failure, now, backoff);
    case LeaseNext(w, id, k, now) => LeaseStepKeeps(h, s, w, id, k, now);
    case TouchJob(w) => TouchStepKeeps(h, s, w);
    case StoreRowFailure(_) => RowResultStepKeeps(h, s, step);
    case StoreRetry(_, _) => RowResultStepKeeps(h, s, step);
    case CloseJob(w, now) => CloseJobKeeps(h, s, w, now);
    case StopWaiting(w) => StopWaitingKeeps(h, s, w);
    case MarkStopped(w) => MarkStoppedKeeps(h, s, w);
    case Crash(w) => GoKeeps(h, s, w, Idle);
    case KindMissing(w) =>
      WorkerFact(h, s, w);
      if WorkerAt(s, w).Ready? { GoKeeps(h, s, w, Failing(WorkerAt(s, w).claim, false)); }
    case ApplyRow(w, outcome) =>
      WorkerFact(h, s, w);
      if WorkerAt(s, w).Ready? {
        ApplyKeeps(h, s, w, WorkerAt(s, w).claim, WorkerAt(s, w).actor, outcome);
        ApplyProgresses(s, w, WorkerAt(s, w).claim, WorkerAt(s, w).actor, outcome);
      }
  }

  lemma {:induction false} RunKeeps(h: Hashes, s: State, steps: seq<Step>)
    requires Inv(h, s)
    ensures Inv(h, Exec(h, s, steps)) && Progresses(s, Exec(h, s, steps))
    decreases |steps|
  {
    hide Inv, Progresses;
    if steps == [] {
      SelfProgresses(s);
    } else {
      var t := Do(h, s, steps[0]);
      StepKeeps(h, s, steps[0]);
      RunKeeps(h, t, steps[1..]);
      ProgressesCompose(s, t, Exec(h, t, steps[1..]));
    }
  }

  lemma JobStepCompose(a: Job, b: Job, c: Job)
    requires JobStep(a, b) && JobStep(b, c)
    ensures JobStep(a, c)
  {
    if !Unpreviewed(a) {
      forall k | k in a.rows ensures RowStep(a.rows[k], c.rows[k]) {
        assert RowStep(a.rows[k], b.rows[k]) && RowStep(b.rows[k], c.rows[k]);
      }
    }
  }

  lemma SelfProgresses(s: State)
    ensures Progresses(s, s)
  {}

  lemma ProgressesCompose(s: State, t: State, u: State)
    requires Progresses(s, t) && Progresses(t, u)
    ensures Progresses(s, u)
  {
    forall id | id in s.jobs ensures id in u.jobs && JobStep(s.jobs[id], u.jobs[id]) {
      JobStepCompose(s.jobs[id], t.jobs[id], u.jobs[id]);
    }
  }

  lemma StartIsSafe(h: Hashes)
    ensures Inv(h, Start)
  {}

  lemma EveryRun(h: Hashes, steps: seq<Step>)
    ensures Inv(h, Exec(h, Start, steps))
  {
    RunKeeps(h, Start, steps);
  }
}
