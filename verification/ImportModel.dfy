/**
  Bulk import: the stored job and row records and, for every SQL statement or
  transaction of the store, the record it leaves behind. Times are seconds.
*/
module ImportModel {
  import opened Options
  import opened Tally

  const MAX_APPLY_ATTEMPTS := 5
  const PREVIEW_TTL := 24 * 3600
  const VALIDATION_LEASE := 180
  const ROW_LEASE := 120

  datatype JobStatus =
    | Uploaded | Validating | PreviewReady | FileInvalid | ValidationFailed
    | Confirmed | Applying | Cancelling | Cancelled | Completed

  datatype RowStatus =
    | RowInvalid | RowUnchanged | RowValid | RowApplying
    | RowSucceeded | RowNeedsApproval | RowFailed | RowCancelled

  /** What the dry-run planned for a row; a trigger keeps it immutable. */
  datatype RowPlan = RowPlan(targetKey: string, payload: string, expectedVersion: Option<int>)

  datatype PlannedRow = PlannedRow(rowNo: int, status: RowStatus, plan: RowPlan)

  datatype Row = Row(plan: RowPlan, status: RowStatus, attempts: nat, leaseUntil: Option<int>)

  type Rows = map<int, Row>

  datatype Job = Job(
    status: JobStatus, version: int, attempts: nat, nextAttemptAt: int,
    previewHash: string, previewAt: Option<int>, confirmedBy: Option<string>,
    errorCode: string, finishedAt: Option<int>, rows: Rows)

  /** One line of the text the preview hash covers. */
  datatype HashLine = HashLine(rowNo: int, status: RowStatus, targetKey: string, payloadHash: string, version: int)

  /** SHA-256 of one payload, and of the whole preview text. */
  datatype Hashes = Hashes(payload: string -> string, preview: seq<HashLine> -> string)

  predicate Pending(r: Row) { r.status.RowValid? || r.status.RowApplying? }

  predicate Applied(r: Row) { r.status.RowSucceeded? || r.status.RowNeedsApproval? }

  predicate Terminal(j: Job) { j.status.Completed? || j.status.Cancelled? }

  predicate Unpreviewed(j: Job) {
    j.status.Uploaded? || j.status.Validating? || j.status.FileInvalid? || j.status.ValidationFailed?
  }

  predicate Running(j: Job) { j.status.Confirmed? || j.status.Applying? || j.status.Cancelling? }

  function NewJob(now: int): Job {
    Job(Uploaded, 1, 0, now, "", None, None, "", None, map[])
  }

  // ---- dry-run -------------------------------------------------------------

  predicate CanClaimValidation(j: Job, now: int) {
    (j.status.Uploaded? || j.status.Validating?) && j.nextAttemptAt <= now
  }

  function ClaimValidation(j: Job, now: int): Job {
    j.(status := Validating, attempts := j.attempts + 1, nextAttemptAt := now + VALIDATION_LEASE)
  }

  predicate HoldsValidation(j: Job, attempts: nat) { j.status.Validating? && j.attempts == attempts }

  /** The primary key (job_id, row_no) and the check row_no > 0 accept the rows. */
  predicate Insertable(planned: seq<PlannedRow>) {
    && (forall i :: 0 <= i < |planned| ==> planned[i].rowNo > 0)
    && (forall i, j :: 0 <= i < j < |planned| ==> planned[i].rowNo != planned[j].rowNo)
  }

  function RowsOf(planned: seq<PlannedRow>): Rows
    decreases |planned|
  {
    if planned == [] then map[]
    else
      var p := planned[|planned| - 1];
      RowsOf(planned[..|planned| - 1])[p.rowNo := Row(p.plan, p.status, 0, None)]
  }

  function SavePreview(j: Job, attempts: nat, planned: seq<PlannedRow>, hash: string, now: int): Job {
    if !HoldsValidation(j, attempts) || !Insertable(planned) then j
    else j.(status := PreviewReady, version := j.version + 1, previewHash := hash,
            previewAt := Some(now), rows := RowsOf(planned))
  }

  /** How a dry-run that produced no preview ends. */
  datatype PlanFailure = BadFile | Unavailable

  function FailValidation(j: Job, attempts: nat, failure: PlanFailure, now: int, backoff: nat): Job {
    if !HoldsValidation(j, attempts) then j
    else if failure.BadFile? then
      j.(status := FileInvalid, errorCode := "file_invalid", version := j.version + 1, finishedAt := Some(now))
    else if attempts >= MAX_APPLY_ATTEMPTS then
      j.(status := ValidationFailed, errorCode := "validation_unavailable", version := j.version + 1, finishedAt := Some(now))
    else j.(status := Uploaded, nextAttemptAt := now + backoff)
  }

  // ---- confirm, cancel, stop -----------------------------------------------

  datatype ConfirmInput = ConfirmInput(previewHash: string, expectedVersion: int, acknowledgeDuplicate: bool)

  datatype ConfirmError = NoSuchJob | StateConflict | PreviewStale | NothingToApply | Disabled | DuplicateFile

  predicate IsReplay(j: Job, actor: string, input: ConfirmInput) {
    j.confirmedBy == Some(actor) && j.previewHash == input.previewHash
  }

  predicate HasValid(rows: Rows) { exists k :: k in rows && rows[k].status.RowValid? }

  predicate HasApplying(rows: Rows) { exists k :: k in rows && rows[k].status.RowApplying? }

  predicate HasPending(rows: Rows) { exists k :: k in rows && Pending(rows[k]) }

  function Confirm(j: Job, actor: string, input: ConfirmInput, now: int, enabled: bool, duplicate: bool): Result<Job, ConfirmError> {
    if IsReplay(j, actor, input) then Ok(j)
    else if !j.status.PreviewReady? then Err(StateConflict)
    else if j.version != input.expectedVersion || j.previewHash != input.previewHash then Err(PreviewStale)
    else if j.previewAt.None? || now - j.previewAt.value > PREVIEW_TTL then Err(PreviewStale)
    else if !HasPending(j.rows) then Err(NothingToApply)
    else if !enabled then Err(Disabled)
    else if duplicate && !input.acknowledgeDuplicate then Err(DuplicateFile)
    else Ok(j.(status := Confirmed, confirmedBy := Some(actor), version := j.version + 1))
  }

  function StopRows(rows: Rows): Rows {
    map k | k in rows :: if rows[k].status.RowValid? then rows[k].(status := RowCancelled) else rows[k]
  }

  /** Cancel of a finished job is refused, of a cancelled one repeats the answer. */
  predicate RefusesCancel(j: Job) { j.status.Completed? || j.status.FileInvalid? || j.status.ValidationFailed? }

  function Cancel(j: Job, now: int): Job {
    if RefusesCancel(j) || j.status.Cancelled? || j.status.Cancelling? then j
    else
      var rows := StopRows(j.rows);
      if HasApplying(rows) then j.(status := Cancelling, version := j.version + 1, finishedAt := None, rows := rows)
      else j.(status := Cancelled, version := j.version + 1, finishedAt := Some(now), rows := rows)
  }

  function StopJob(j: Job, code: string): Job { j.(errorCode := code, version := j.version + 1) }

  // ---- applying ------------------------------------------------------------

  predicate CanClaimRow(j: Job, k: int, now: int) {
    && k in j.rows
    && var r := j.rows[k];
       || (r.status.RowValid? && (j.status.Confirmed? || j.status.Applying?))
       || (r.status.RowApplying? && r.leaseUntil.Some? && r.leaseUntil.value < now)
  }

  function LeaseRow(r: Row, now: int): Row {
    r.(status := RowApplying, attempts := r.attempts + 1, leaseUntil := Some(now + ROW_LEASE))
  }

  function MarkApplying(j: Job): Job { if j.status.Confirmed? then j.(status := Applying) else j }

  predicate HoldsLease(rows: Rows, k: int, attempts: nat) {
    k in rows && rows[k].status.RowApplying? && rows[k].attempts == attempts
  }

  function FinishRow(rows: Rows, k: int, attempts: nat, status: RowStatus): Rows {
    if HoldsLease(rows, k, attempts) then rows[k := rows[k].(status := status, leaseUntil := None)] else rows
  }

  function RetryRow(rows: Rows, k: int, attempts: nat, until: int): Rows {
    if HoldsLease(rows, k, attempts) then rows[k := rows[k].(leaseUntil := Some(until))] else rows
  }

  function FinalizeJob(j: Job, now: int): Job {
    if Running(j) && !HasPending(j.rows) then
      j.(status := if j.status.Cancelling? then Cancelled else Completed, finishedAt := Some(now), version := j.version + 1)
    else j
  }

  // ---- counts --------------------------------------------------------------

  datatype Summary = Summary(total: int, invalid: int, same: int, pending: int,
                             succeeded: int, needsApproval: int, failed: int, cancelled: int)

  function Has(s: RowStatus): Row -> int { (r: Row) => if r.status == s then 1 else 0 }

  function Any(): Row -> int { (r: Row) => 1 }

  function Waiting(): Row -> int { (r: Row) => if Pending(r) then 1 else 0 }

  ghost function Count(rows: Rows, s: RowStatus): int { Total(rows, Has(s)) }

  /** The eight counting subqueries of a job listing. */
  ghost function SummaryOf(rows: Rows): Summary {
    Summary(Total(rows, Any()), Count(rows, RowInvalid), Count(rows, RowUnchanged), Total(rows, Waiting()),
            Count(rows, RowSucceeded), Count(rows, RowNeedsApproval), Count(rows, RowFailed), Count(rows, RowCancelled))
  }

  datatype Outcome = NoOutcome | AllFailed | AllSucceeded | Partial

  function OutcomeOf(status: JobStatus, confirmed: bool, s: Summary): Outcome {
    if (status != Completed && status != Cancelled) || !confirmed then NoOutcome
    else if s.succeeded + s.needsApproval == 0 then AllFailed
    else if s.failed + s.cancelled + s.invalid == 0 then AllSucceeded
    else Partial
  }

  /** What a single job guarantees whatever workers are doing. */
  ghost predicate JobInv(j: Job) {
    && (Unpreviewed(j) ==> j.rows == map[] && j.previewHash == "")
    && (j.confirmedBy.None? ==> !Running(j) && !j.status.Completed?)
    && (j.confirmedBy.Some? ==> Running(j) || Terminal(j))
    && (Terminal(j) ==> !HasPending(j.rows))
    && (j.status.Cancelling? ==> !HasValid(j.rows))
    && (j.finishedAt.Some? <==> Terminal(j) || j.status.FileInvalid? || j.status.ValidationFailed?)
    && (j.status.ValidationFailed? ==> j.attempts >= MAX_APPLY_ATTEMPTS)
    && (forall k :: k in j.rows ==> RowInv(j, j.rows[k]))
  }

  predicate RowInv(j: Job, r: Row) {
    && (r.status.RowApplying? || r.status.RowSucceeded? || r.status.RowNeedsApproval? || r.status.RowFailed? ==> j.confirmedBy.Some?)
    && (r.status.RowApplying? <==> r.leaseUntil.Some?)
    && (r.status.RowValid? ==> r.attempts == 0)
    && (r.status.RowApplying? ==> 0 < r.attempts)
  }
}
