# Verified models of the marketplace's stateful protocols

This project models, in Dafny, the parts of the backend that must stay correct
over unbounded runs with crashes, retries and interleaving, and proves what
they promise.

- **Bulk import** (`Import*`, `PlanAssembly`, `PreviewHash`, `Csv*`): a vendor
  uploads a file, a dry-run plans every row, the vendor confirms the preview,
  and several appliers apply the rows one by one. `ImportModel` holds the job
  and row records and what each SQL statement does to them; `ImportProtocol`
  lets any number of validators, appliers and users take their statements in
  any order, with crashes, expired leases and lost commit answers;
  `ImportService` is the service updating its tables in place, and `ImportTrail`
  follows every applied row back to the steps that caused it.
- **Case deadlines** (`Deadline`, `CaseSla*`, `CaseDelivery`): work items with
  stages, pauses, extensions and a seven-day outer limit; owners and operators
  writing to them; a scanner that enqueues each notice once; and a worker that
  delivers the notices.
- **Notices to a person** (`NoticeOutbox`): an outbox with bounded retries.
- **Event consumers** (`Inbox*`): at-least-once messages applied at most once
  through a transactional inbox, with parking, replay, discard and purge.
- **Selling permissions** (`VersionedTable`, `VendorSales`, `ProductSales`,
  `Checkout`): projections where the highest version wins, their batched form,
  and the fence that checkout passes before it creates an order.
- **Gateway** (`RateLimiter`, `RateRules`, `Router`): request budgets and
  prefix dispatch.
- **Lists** (`Paging`): keyset pages over a list that changes while it is read.
- `Options`, `Tally` (sums over a map) and `Texts` (byte order) are shared.

A protocol is a function from a state and a step to the next state, one step
being one SQL statement, one transaction, one foreign call or one failure. A
step that does not fit the state changes nothing, so every sequence of steps is
a run and each main result quantifies over all of them. Where the code updates
records in place, a class does the same and its methods are proved equal to
those steps. Lemmas named `...Means` and `...Iff` say when an operation succeeds
and what it leaves, in the literal statuses, times and counts of the design.
Times are integers. PostgreSQL's atomicity of a statement or
transaction is the models' assumption; a statement that fails or whose worker
disappears is a crash step.

## Where the code does less than its comments say

- `deadline.go` says that Apply preserves deadlines on repeated messages. A
  repeated pause of an item that is not active is the exception: it does not
  reactivate the item, so each repeat raises the deadline version again.
  `Deadline.RepeatKeepsDeadlineIff` says exactly when the promise holds, and
  `Deadline.RepeatedPauseRaisesVersion` shows it fail in a history.
- A crash between a row's result and `FinalizeJob`, or a lost answer to the
  commit of the result, after which the applier only postpones a row that is
  already final, leaves the job open. A user can still cancel it, unless it was
  already cancelling: then nothing in the repository ever closes it
  (`ImportStranded.CrashCanStrandAJob`, `ImportStranded.LostAnswerCanStrandAJob`).
  A slow applier whose row was taken over does not help either, since it
  returns without closing the job (`ImportStranded.StaleClaimCanStrandAJob`).
  `ImportStranded.OpenJobFinishesIff` says of every reachable open job whether
  it can still be finished, once for processes that all know the job's kind
  and once for any.
- `ApplyAll` says that it follows the same version rule as `Apply` for each
  row. Versions, statuses and the accepting flag do agree. The confirmation
  time does not when one page brings the held version twice, first with another
  payload (`VersionedTable.BatchEqualsEachIff`, `VendorSales.ContestedPageDiffers`).
- Purging deduplication rows after 30 days is safe only for events that are not
  published again long after (`InboxTheorems.PurgeKeepsDeduplication`,
  `InboxTheorems.RepublicationAfterPurge`, `InboxTheorems.DiscardedAfterPurge`).
- The limiter's budget is per window. Over an arbitrary minute it is twice the
  limit less one, and that is reached (`RateLimiter.TwiceLessOneIsReached`).

## Model

| member | source | states |
|---|---|---|
| ImportTheorems.ExactlyOnceApply | backend/pkg/bulkimport/service.go:863-929 | in every run, with crashes, expired leases, stale workers, cancels, stops and lost commit answers, a row's committed Apply effects number 1 when it is succeeded or needs approval, and 0 otherwise |
| ImportTheorems.JobRowConsistency | backend/pkg/bulkimport/store.go:198-305 | in every reachable state: a finished job has no waiting row, a cancelling one no valid row, a job without preview no rows, and rows that were claimed exist only in confirmed jobs |
| ImportTheorems.FinishedJobsAreFrozen | backend/pkg/bulkimport/store.go:403-458 | nothing later changes a completed or cancelled job's status, rows, outcome or effects |
| ImportTheorems.Later | backend/pkg/bulkimport/store.go:403-458 | from any reachable state on, jobs and rows only move forward: no status goes back, plans never change |
| ImportTheorems.ConfirmPinsApply | backend/pkg/bulkimport/service.go:847-859 | behind every committed Apply stands the one confirmation of its job, for the hash of the stored preview, and that preview planned exactly this target, payload and version as valid |
| ImportTheorems.ConfirmedOnce | backend/pkg/bulkimport/service.go:370-430 | no job is confirmed twice in any run |
| ImportTheorems.StaleApplierIsFenced | backend/pkg/bulkimport/store.go:421-450 | a worker whose claim has an older attempts value changes no row and commits no effect, whichever statement it runs next |
| ImportTheorems.StaleValidatorIsFenced | backend/pkg/bulkimport/store.go:222-264 | a dry-run whose lease was taken over, or whose job left validating, changes nothing |
| ImportTheorems.ConservationOfRows | backend/pkg/bulkimport/store.go:40-47 | from preview on the total is constant and the sum of the other seven counts, invalid and unchanged never change, pending never grows and the final counts never shrink |
| ImportTheorems.EveryRowIsCounted | backend/pkg/bulkimport/model.go:137-147 | the seven counts partition the rows and the total is the number of rows |
| ImportTheorems.PendingIsCounted | backend/pkg/bulkimport/service.go:398-400 | the pending count is positive exactly when some row is valid or applying, which is what closing a job tests |
| ImportTrail.AuditTrail | backend/pkg/bulkimport/service.go:863-892 | behind every committed Apply of every run stand, in this order, the step that saved a preview planning exactly this target, payload and version as valid, the request that confirmed that preview within 24 hours, and the apply transaction of a lease holder acting for that user; the row ends as needing approval exactly when the owner answered so and as succeeded otherwise |
| ImportTrail.ConfirmedInTime | backend/pkg/bulkimport/service.go:370-430 | every confirmation of every run is one request, at most 24 hours after the step that saved the preview, with its hash and the job's version, a valid row to apply, the feature enabled and a duplicate file acknowledged |
| ImportRules.UploadMeans | backend/pkg/bulkimport/store.go:125-139 | a new job can be claimed for its dry-run exactly from its upload on; a repeated upload changes nothing |
| ImportRules.ConfirmIff | backend/pkg/bulkimport/service.go:381-430 | in every reachable state: exactly when a new confirmation is accepted, which condition each refusal stands for, and what is stored |
| ImportRules.ConfirmRepeats | backend/pkg/bulkimport/service.go:385-388 | a confirmation repeated at any later time returns the job and changes nothing |
| ImportRules.CancelMeans | backend/pkg/bulkimport/service.go:452-482 | in every reachable state: which jobs refuse a cancel, which repeat the answer, and otherwise that exactly the valid rows are cancelled and the job is cancelling exactly while a row is in flight |
| ImportRules.DryRunFailureMeans | backend/pkg/bulkimport/service.go:731-742 | a bad file ends the job; any other failure sends it back until its backoff is over, except from the fifth attempt on |
| ImportRules.FailsAfterFive | backend/pkg/bulkimport/service.go:738-740 | in every run a job that failed without a verdict on its file had at least five attempts |
| ImportRules.SavedPreviewMeans | backend/pkg/bulkimport/store.go:220-253 | the rows of a saved preview are exactly the planned ones, untried |
| ImportRules.DryRunLeaseLasts | backend/pkg/bulkimport/store.go:197-202 | a claimed dry-run can be claimed again exactly from 180 seconds later on |
| ImportRules.RowLeaseLasts | backend/pkg/bulkimport/store.go:403-450 | a claimed row can be claimed again exactly after 120 seconds, a postponed one after its backoff |
| ImportRules.OutcomeMeans | backend/pkg/bulkimport/service.go:242-258 | the outcome of a job in terms of the statuses of its rows |
| ImportApply.ApplicationMeans | backend/pkg/bulkimport/service.go:861-922 | one application of a claimable row: the row's final status for each way the transaction ends, the effect exactly with a committed result, the rows stopped by a revoked permission, when the job is closed and as what, and nothing else changed |
| ImportService.Summarize | backend/pkg/bulkimport/store.go:91-123 | the loop over the grouped query computes the same eight numbers as the eight counting subqueries, for any order of the groups |
| ImportSafety.StepKeeps | backend/pkg/bulkimport/service.go:863-929 | every statement, crash and user action keeps the invariant behind the guarantees above, and only moves jobs forward |
| ImportSafety.EveryRun | backend/pkg/bulkimport/service.go:674-712 | the invariant holds after every sequence of steps of any number of workers and users |
| ImportProgress.ClaimsAreBounded | backend/pkg/bulkimport/model.go:60-61 | in runs without crashes, lost leases and lost answers a job previewed with n valid rows is claimed at most 5n times |
| ImportProgress.RunSpends | backend/pkg/bulkimport/service.go:863-929 | each claim spends one unit of the sum of remaining attempts, which nothing refills |
| ImportProgress.PreviewBudget | backend/pkg/bulkimport/model.go:60-61 | at preview that sum is five for each valid row |
| ImportProgress.IdleJobsAreClaimable | backend/pkg/bulkimport/store.go:403-417 | in fault-free runs an open job with all workers idle has a row that can be claimed from some time on |
| ImportProgress.SpentJobsAreFinished | backend/pkg/bulkimport/store.go:452-458 | in fault-free runs a confirmed job whose budget is spent is completed or cancelled once the workers are idle |
| ImportProgress.ClaimedOutJobsFinish | backend/pkg/bulkimport/service.go:863-929 | end to end: in fault-free runs a job previewed with n valid rows, confirmed and claimed 5n times, is completed or cancelled as soon as the workers are idle |
| ImportProgress.StepLive | backend/pkg/bulkimport/service.go:863-929 | every fault-free step keeps: a claimed row is held by one live worker, and an open job has a waiting row or a worker that still owes FinalizeJob |
| ImportStranded.CrashCanStrandAJob | backend/pkg/bulkimport/service.go:924-929 | a concrete run in which a crash between the row result and FinalizeJob leaves a cancelling job open |
| ImportStranded.AbandonedFinishesIffNotCancelling | backend/pkg/bulkimport/service.go:452-482 | an open job with nothing pending and no worker on it can still finish exactly when it is not cancelling, whether or not every process knows its kind |
| ImportStranded.OpenJobFinishesIff | backend/pkg/bulkimport/service.go:863-929 | in every reachable state an open job can still finish exactly when it is not cancelling, a row is waiting or in flight, or a worker is storing a failure, stopping or closing the job, or holds a claim that may still fail: with the kind known everywhere (service.go:77-83) only one on its fifth attempt, otherwise any not postponed; one statement for each of the two cases |
| ImportStranded.StaleClaimCanStrandAJob | backend/pkg/bulkimport/service.go:878-895 | a concrete run in which a slow applier's row is taken over, applied and its worker lost: processes that know the kind never close the cancelling job, although the slow applier still holds its claim |
| ImportStranded.LostAnswerCanStrandAJob | backend/pkg/bulkimport/service.go:914-921 | a concrete run without crashes: the answer of the last row's commit is lost, the applier postpones the finished row, and the cancelling job stays open for good |
| ImportService.Service.CreateJob | backend/pkg/bulkimport/store.go:125-139 | stores a new job once; a repeated id changes nothing |
| ImportService.Service.ClaimNextValidation | backend/pkg/bulkimport/store.go:197-202 | leases a claimable job and counts the attempt, or reports that none is claimable |
| ImportService.Service.InsertRows | backend/pkg/bulkimport/store.go:233-244 | stores the planned rows, or refuses them all when a row number is repeated or not positive |
| ImportService.Service.SaveDryRun | backend/pkg/bulkimport/store.go:220-253 | replaces the preview in one transaction, only while the validation lease is ours |
| ImportService.Service.RecordFailure | backend/pkg/bulkimport/store.go:255-264 | ends the dry-run or schedules a retry, only while the lease is ours |
| ImportService.Service.ValidateNext | backend/pkg/bulkimport/service.go:721-752 | does nothing when no job is due, and otherwise exactly the claim and its one result |
| ImportService.Service.ConfirmJob | backend/pkg/bulkimport/service.go:370-430 | the checks in their order, each with its refusal; a new confirmation only of a waiting preview at most 24 hours old; a repeated confirm changes nothing; a missing job is reported |
| ImportService.Service.CancelJob | backend/pkg/bulkimport/service.go:452-482 | stops waiting rows; the job is cancelling while a row is in flight; finished jobs refuse, cancelled ones repeat the answer |
| ImportService.Service.LeaseAnyRow | backend/pkg/bulkimport/store.go:403-412 | leases a claimable row and counts the attempt, or reports that none is claimable |
| ImportService.Service.TouchClaimed | backend/pkg/bulkimport/store.go:413-417 | the first claim moves a confirmed job to applying and reads its confirmer |
| ImportService.Service.LockRow | backend/pkg/bulkimport/store.go:419-432 | true exactly when the row is applying under this claim's attempts |
| ImportService.Service.UpdateRow | backend/pkg/bulkimport/store.go:434-443 | writes a row's final status only under the claim's attempts |
| ImportService.Service.ApplyClaimed | backend/pkg/bulkimport/service.go:878-892 | effect and result commit together or not at all, under the lease check, as needing approval or succeeded as the owner answered; a lost answer commits but reads as a transient error |
| ImportService.Service.FailRow | backend/pkg/bulkimport/service.go:901-917 | records the failed row under its lease |
| ImportService.Service.PostponeRow | backend/pkg/bulkimport/store.go:445-450 | keeps the row leased until its backoff ends, only under its lease |
| ImportService.Service.FinalizeJob | backend/pkg/bulkimport/store.go:452-458 | closes the job exactly when it is running and nothing is pending |
| ImportService.Service.StopWaitingRows | backend/pkg/bulkimport/store.go:298-302 | cancels the rows still waiting |
| ImportService.Service.MarkJobStopped | backend/pkg/bulkimport/store.go:303-304 | records why the job was stopped |
| ImportService.Service.ClaimRow | backend/pkg/bulkimport/store.go:401-417 | both statements of a claim, or nothing when no row is claimable |
| ImportService.Service.Finish | backend/pkg/bulkimport/service.go:901-929 | failed row, close, and after a revoked permission also stop and close, in this order |
| ImportService.Service.Settle | backend/pkg/bulkimport/service.go:893-922 | each way the transaction ends leads to exactly its statements: close, fail, stop or postpone |
| ImportService.Service.ApplyNext | backend/pkg/bulkimport/service.go:861-922 | claims and applies one row: the state after it is that of the fixed list of statements of one application, and as ImportApply.ApplicationMeans says; false exactly when nothing is claimable |
| PreviewHash.HashIgnoresOrder | backend/pkg/bulkimport/service.go:847-859 | the preview hash does not depend on the order of the rows |
| PreviewHash.AnySortAgrees | backend/pkg/bulkimport/service.go:848-849 | any sort by row number, stable or not, hashes the same lines, as row numbers are distinct |
| PreviewHash.SameLinesSameRows | backend/pkg/bulkimport/service.go:851-857 | two previews have the same lines exactly when line by line they show the same row number, status and target, the same payload hash unless invalid, and the same version if valid, no version and version 0 being written alike |
| PreviewHash.HashPinsRows | backend/pkg/bulkimport/service.go:847-859 | with a hash that never collides, previews with one hash show the same rows in whatever order |
| PreviewHash.Compute | backend/pkg/bulkimport/service.go:847-859 | the loop over the sorted copy computes that hash |
| PlanAssembly.PlanFile | backend/pkg/bulkimport/service.go:772-821 | every planned row carries the cells, record and plan of the same file row: the owner's n-th answer goes to the n-th record that passed the cell rules; a failed or miscounted answer refuses the file |
| PlanAssembly.PlannedRowMeans | backend/pkg/bulkimport/service.go:772-845 | what each row shows: the cell rules' error, else the error of the owner's answer to that very record, else duplicate_target naming exactly the rows with its target, else unchanged or valid with the answer's target, payload and version |
| PlanAssembly.OnlyPassedAreAsked | backend/pkg/bulkimport/service.go:773-785 | the owner is asked about exactly the records the cell rules passed, each at its place among them |
| PlanAssembly.MarkedIffShared | backend/pkg/bulkimport/service.go:824-845 | a row becomes duplicate_target exactly when another error-free plan has its non-empty target |
| PlanAssembly.NoTargetTwice | backend/pkg/bulkimport/service.go:824-845 | no two rows left valid or unchanged share a non-empty target |
| PlanAssembly.MarkDuplicates | backend/pkg/bulkimport/service.go:826-845 | overwrites exactly those plans in place, in whatever order the map yields the groups, naming the rows that share the target |
| PlanAssembly.GroupTargets | backend/pkg/bulkimport/service.go:827-832 | groups the error-free rows by target, in file order |
| PlanAssembly.MarkGroup | backend/pkg/bulkimport/service.go:833-844 | rewrites the plans of one group and no other |
| PlanAssembly.PassedIsChecked | backend/pkg/bulkimport/service.go:773-793 | the position an answer is put back at is the record it was asked for |
| PlanAssembly.Select | backend/pkg/bulkimport/service.go:772-782 | splits the records into refused plans and those to be planned, remembering where each came from |
| PlanAssembly.Place | backend/pkg/bulkimport/service.go:791-793 | puts the n-th answer at the n-th remembered place and touches nothing else |
| PlanAssembly.BuildRows | backend/pkg/bulkimport/service.go:796-820 | status, payload and version of each row follow from its plan |
| PlanAssembly.PlannedFileIsStorable | backend/pkg/bulkimport/store.go:233-244 | rows planned from a parsed file always pass the table's constraints and start as invalid, unchanged or valid |
| CsvParse.Parse | backend/pkg/bulkimport/csv.go:68-104 | accepts exactly the files whose entries fit and whose data rows are between one and the limit; keeps each entry of the reader that has data once, numbered by its place among the entries, blank ones skipped but counted; otherwise reports the first problem |
| CsvParse.Values | backend/pkg/bulkimport/csv.go:94-97 | aligns trimmed cells with the header |
| CsvParse.Inspect | backend/pkg/bulkimport/csv.go:81-87 | finds a cell over the size limit, and whether the entry is blank |
| CsvHeader.AcceptedIff | backend/pkg/bulkimport/csv.go:107-130 | a name is accepted exactly when the template lists it or it is the dynamic prefix and a code of 1 to 64 lower-case characters |
| CsvHeader.CheckHeader | backend/pkg/bulkimport/csv.go:107-137 | accepts exactly the headers whose names are given, distinct, known and complete, and otherwise reports the first problem |
| CsvHeader.ReadFile | backend/pkg/bulkimport/csv.go:64-104 | a file is read exactly when its header fits the template and its entries fit the header |
| Deadline.SameVersionSameDeadline | backend/pkg/casesla/deadline/deadline.go:83-156 | two moments of an item's history with the same deadline version have the same stage, due, reminder, pause and effective deadline |
| Deadline.EventPins | backend/pkg/casesla/deadline/deadline.go:83-156 | every event keeps the deadline as it was or raises its version, by at most one and never more than the version |
| Deadline.DeadlineSafety | backend/pkg/casesla/deadline/deadline.go:56-156 | over every history: the outer limit is creation plus seven days, the effective deadline never passes it, the reminder is not after both due and stage start, and a breach is never cleared or rewritten |
| Deadline.BreachIsRecorded | backend/pkg/casesla/deadline/deadline.go:83-89 | every write, accepted extension or scan at or past an active item's effective deadline records it as breached, once |
| Deadline.NoFalseBreach | backend/pkg/casesla/deadline/deadline.go:83-89 | a breach is recorded only for an active item whose effective deadline has passed, with that deadline |
| Deadline.PausingKeepsTheBudget | backend/pkg/casesla/deadline/deadline.go:95-120 | whatever happened before a stage was started, and however often it is then paused (under any stage name) and resumed among scans, assignments and replays, its deadline is the earlier of the outer limit and start plus duration plus paused time, although every resume clamps |
| Deadline.FirstStageKeepsTheBudget | backend/pkg/casesla/deadline/deadline.go:56-79 | the same for the stage an item is created with, even when created paused |
| Deadline.BudgetIsConserved | backend/pkg/casesla/deadline/deadline.go:95-120 | the same at every moment of the stage, paused or not, up to the running pause |
| Deadline.RepeatKeepsDeadlineIff | backend/pkg/casesla/deadline/deadline.go:81-133 | repeating a message keeps the deadline exactly when it is not a pause of an inactive item; for that one the comment's promise fails |
| Deadline.RepeatedPauseRaisesVersion | backend/pkg/casesla/deadline/deadline.go:95-103 | for every item: ended and then paused twice, its deadline version rises with the repeat |
| Deadline.NoticesIff | backend/pkg/casesla/deadline/deadline.go:158-178 | exactly when the reminder, the overdue notice and each of three escalations are due |
| Deadline.NoticesCatchUp | backend/pkg/casesla/deadline/deadline.go:158-178 | what was due earlier is still due later, a reminder at most replaced by the overdue notice |
| Deadline.ThreeQuarters | backend/pkg/casesla/deadline/deadline.go:72-72 | three quarters of a duration truncated toward zero, for negative durations too |
| CaseSlaRules.CreationMeans | backend/pkg/casesla/deadline/deadline.go:56-79 | the fields of a new item: due after its duration within seven days, reminded at three quarters, both versions 1 |
| CaseSlaRules.MessageMeans | backend/pkg/casesla/deadline/deadline.go:81-133 | what a message does to every field, by whether it ends, pauses, resumes, starts or repeats the stage; the reminder of a started stage lies three quarters of the way to its deadline |
| CaseSlaRules.ExtensionMeans | backend/pkg/casesla/deadline/deadline.go:142-156 | exactly when an extension is accepted, and that it sets the requested deadline, a reminder three quarters of the way to it, and the breach of the old one |
| Deadline.Item.constructor | backend/pkg/casesla/deadline/deadline.go:56-64 | a new item starts its stage at version 1 with the outer limit set |
| Deadline.Item.Load | backend/pkg/casesla/store.go:34-45 | an item read back equals the stored one |
| Deadline.Item.Start | backend/pkg/casesla/deadline/deadline.go:66-79 | starts a stage in place, clamped to the outer limit |
| Deadline.Item.RecordBreach | backend/pkg/casesla/deadline/deadline.go:84-89 | records a missed deadline in place, once |
| Deadline.Item.ResumeAt | backend/pkg/casesla/deadline/deadline.go:104-120 | gives back the paused time in place, clamped |
| Deadline.Item.ApplyInput | backend/pkg/casesla/deadline/deadline.go:83-133 | the in-place update agrees with the specified transition, and so does what it reports as changed |
| Deadline.Item.Due | backend/pkg/casesla/deadline/deadline.go:135-140 | the outer deadline while paused, the earlier one otherwise |
| Deadline.Item.ExtendTo | backend/pkg/casesla/deadline/deadline.go:142-156 | succeeds exactly for a later deadline of a running item within the limit, and then records a missed one first |
| Deadline.Item.RecordScan | backend/pkg/casesla/worker.go:121-142 | what the scan writes to the item |
| Deadline.Item.NoticesDue | backend/pkg/casesla/deadline/deadline.go:160-178 | the loop lists exactly the notices due |
| CaseSlaRuns.OneNoticePerDeadline | backend/pkg/casesla/worker.go:135-208 | in every run of syncs, commands and scans no user gets one kind of notice twice for a deadline version, notices of one version name one stage and deadline, and the shop is told at most once each of reminder and overdue, never of an escalation |
| CaseSlaRuns.SentOnlyOnce | backend/pkg/casesla/worker.go:171-177 | once one scan sent a kind of notice for a deadline version, no later step sends it to anyone |
| CaseSlaNotices.ScanMissesNothing | backend/pkg/casesla/worker.go:80-210 | a scan that commits leaves every scanned item's breach recorded and every notice then owed settled: the shop told, everyone it is meant for checked, and every active administrator among them told now or before |
| CaseSlaNotices.ScanTellsExactly | backend/pkg/casesla/worker.go:120-200 | after every history, exactly who hears of what from a scan: a notice to a user is new exactly if it is owed, not sent for this deadline version, and the user is an active administrator and the assignee, or on call with no assignee, or on the escalation list of anything but a reminder; a kind counts as sent only once somebody was told |
| CaseSlaNotices.ScanFailsIff | backend/pkg/casesla/worker.go:101-166 | a scan fails, changing nothing, exactly when an assignee or someone a notice is meant for cannot be checked, or the shop must be told and its hook refuses |
| CaseSlaRules.CommandMeans | backend/pkg/casesla/store.go:218-290 | exactly when a command under a new key is obeyed, what each kind writes to the item, the refusal otherwise, and what is stored |
| CaseSlaRules.UsedKeyMeans | backend/pkg/casesla/store.go:229-241 | a used key answers the same request with the stored result and refuses any other |
| CaseSlaRules.SyncMeans | backend/pkg/casesla/store.go:59-94 | an owner's message creates or changes its item, saved or not, unless a timestamp is missing |
| CaseSlaRuns.OneCommandPerVersion | backend/pkg/casesla/store.go:245-247 | at most one command ever succeeds against one version of an item |
| CaseSlaRuns.RepeatedCommandChangesNothing | backend/pkg/casesla/store.go:229-241 | a command repeated under its key at any later time returns the stored result and changes nothing |
| CaseSlaRuns.ReusedKeyIsRefused | backend/pkg/casesla/store.go:236-238 | a key with another request is refused for good |
| CaseSlaRuns.ScanAllKeeps | backend/pkg/casesla/worker.go:120-208 | a batch scans exactly its items, each once, and keeps every invariant although the items are saved after their notices |
| CaseSlaRuns.StepKeeps | backend/pkg/casesla/store.go:59-94 | every sync, command and scan keeps the invariant, takes back no record and sends nothing already sent |
| CaseSla.RecipientsAreDistinct | backend/pkg/casesla/worker.go:148-166 | no recipient is listed twice, however the configured lists overlap |
| CaseSla.NotifyIgnoresItems | backend/pkg/casesla/worker.go:143-200 | notices do not depend on whether the item was saved before or after them |
| CaseSlaStore.IsActive | backend/pkg/casesla/worker.go:101-119 | one answer per user and batch; an unavailable check is never remembered |
| CaseSlaStore.ActiveAmong | backend/pkg/casesla/worker.go:157-166 | the active recipients in order, or none when one cannot be checked |
| CaseSla.ShopIsToldOnce | backend/pkg/casesla/worker.go:223-235 | telling the shop fails exactly when it is owed a first notice and the hook refuses; otherwise an owed receipt is there afterwards, one notice was added exactly if it was not there before, nothing else changed, and telling again changes nothing |
| CaseSlaStore.Enqueue | backend/pkg/casesla/worker.go:178-195 | one notice per recipient |
| CaseSlaStore.SendOne | backend/pkg/casesla/worker.go:144-196 | shop, recipients, receipt and notices of one kind |
| CaseSlaStore.SendAll | backend/pkg/casesla/worker.go:143-197 | the kinds one after the other, stopping at the first failure |
| CaseSlaStore.ScanOne | backend/pkg/casesla/worker.go:120-200 | one item: assignee check, breach, notices, save |
| CaseSlaStore.ScanBatch | backend/pkg/casesla/worker.go:120-208 | the items one after the other, stopping at the first failure |
| CaseSlaStore.Store.SyncStage | backend/pkg/casesla/store.go:59-94 | creates or updates the item and saves it only when something changed; missing timestamps are refused |
| CaseSlaStore.Store.MutateItem | backend/pkg/casesla/store.go:202-294 | one operator command: replay, version check, action, and the stored result |
| CaseSlaStore.Store.ScanDue | backend/pkg/casesla/worker.go:80-210 | the batch commits as a whole or leaves the tables alone |
| CaseDelivery.FiveAttempts | backend/pkg/casesla/worker.go:254-291 | with one worker and any crashes a notice is leased at most 5 times between replays and published at most as often; delivered only after an accepted call, parked only with all attempts used |
| CaseDelivery.DeliveredIsFinal | backend/pkg/casesla/worker.go:282-282 | a delivered notice is never leased, published or replayed again |
| CaseDelivery.NothingIsForgotten | backend/pkg/casesla/worker.go:258-271 | a pass that begins 3610 seconds after everything before finds each notice delivered, parked, or due with attempts left |
| CaseDelivery.LeasesTheEarliest | backend/pkg/casesla/worker.go:266-269 | the earliest free due row is leased, and none only when none is due |
| CaseDelivery.RoundMeans | backend/pkg/casesla/worker.go:263-290 | one round takes the earliest free row, leases it for 30 seconds, and delivers it, frees it after the minute, doubled each time, or sets it aside after the fifth attempt |
| CaseDelivery.StaleOutcomeIsFenced | backend/pkg/casesla/worker.go:282-285 | an outcome is written only under the attempt it belongs to |
| CaseDelivery.BeginMeans | backend/pkg/casesla/worker.go:258-262 | a pass begins by setting aside exactly the undelivered rows with five attempts and no live lease |
| CaseDelivery.ReplayMeans | backend/pkg/casesla/store.go:271-275 | a replay makes exactly the item's undelivered rows that were set aside due at once with all attempts |
| CaseDelivery.StepKeeps | backend/pkg/casesla/worker.go:254-291 | every statement, publish call, crash and replay keeps the attempt budget |
| CaseDelivery.Outbox.ParkExhausted | backend/pkg/casesla/worker.go:258-262 | parks exactly the used-up rows without a live lease |
| CaseDelivery.Outbox.FindDue | backend/pkg/casesla/worker.go:267-268 | finds that row |
| CaseDelivery.Outbox.LeaseNext | backend/pkg/casesla/worker.go:263-275 | leases it and counts the attempt |
| CaseDelivery.Outbox.WriteOutcome | backend/pkg/casesla/worker.go:280-286 | writes the outcome only if the row was not leased again |
| CaseDelivery.Outbox.Deliver | backend/pkg/casesla/worker.go:254-292 | one pass of at most a hundred rounds equals the statements in order, a failed write ending it like a crash |
| CaseDelivery.Outbox.ReplayItem | backend/pkg/casesla/store.go:271-275 | resets exactly the item's parked, undelivered rows |
| CaseDelivery.ReplayRows | backend/pkg/casesla/store.go:271-275 | the same over the list of rows |
| NoticeOutbox.OutboxSafety | backend/pkg/noticeoutbox/outbox.go:48-86 | in every run: one row per dedup key, at most twenty recorded failures, review exactly after the twentieth, delivered only if accepted, and calls and records differ by at most the lost transactions |
| NoticeOutbox.AtMostOnceWithoutCrashes | backend/pkg/noticeoutbox/outbox.go:62-86 | without crashes a notice is accepted at most once and each failure is recorded |
| NoticeOutbox.RowsStay | backend/pkg/noticeoutbox/outbox.go:48-86 | a queued notice keeps its content, and is left alone for good once delivered or under review |
| NoticeOutbox.NothingIsForgotten | backend/pkg/noticeoutbox/outbox.go:65-80 | a notice is delivered, under review, or due within ten minutes of the last step |
| NoticeOutbox.ReviewTakesTime | backend/pkg/noticeoutbox/outbox.go:77-80 | a notice comes under review no earlier than 6423 seconds after it was queued |
| NoticeOutbox.NextDueIsEarliest | backend/pkg/noticeoutbox/outbox.go:65-68 | the earliest free due row is relayed, and none only when none is due |
| NoticeOutbox.RelayMeans | backend/pkg/noticeoutbox/outbox.go:59-86 | one relay transaction takes the earliest free row and delivers it, or counts the failure, waits a second doubled each time up to ten minutes, and sets it aside for review at the twentieth |
| NoticeOutbox.QueueMeans | backend/pkg/noticeoutbox/outbox.go:48-57 | a notice is queued exactly when its key has 1 to 200 bytes and is new |
| NoticeOutbox.DrainStops | backend/pkg/noticeoutbox/outbox.go:92-102 | a drain stops short only when nothing is due or a transaction is lost, and makes one call per relayed row |
| NoticeOutbox.Outbox.EnqueueOnce | backend/pkg/noticeoutbox/outbox.go:48-57 | queues once per key; a key of the wrong length is refused |
| NoticeOutbox.Outbox.FindDue | backend/pkg/noticeoutbox/outbox.go:65-68 | finds the row to relay |
| NoticeOutbox.Outbox.RelayNext | backend/pkg/noticeoutbox/outbox.go:59-86 | relays one row; a lost transaction leaves the table alone although the call was made |
| NoticeOutbox.Outbox.DrainDue | backend/pkg/noticeoutbox/outbox.go:92-102 | the counting loop |
| InboxTheorems.AppliedAtMostOnce | backend/pkg/eventbus/inbox.go:71-111 | under duplication, reordering, crashes, lost answers, parking, replay, discard and timely purge an event is applied at most once per consumer, is applied iff its row is processed, and operators decide about it at most once |
| InboxTheorems.SettledForGood | backend/pkg/eventbus/inbox.go:93-111 | a processed event is never parked again and a discarded one never applied, from any moment on |
| InboxTheorems.AckedIsAccountedFor | backend/pkg/eventbus/consumer.go:167-190 | an acknowledged message was applied, discarded by an operator, or is parked under a row |
| InboxTheorems.ExactlyTheProcessed | backend/pkg/eventbus/inbox.go:71-111 | without purges no timing matters: applied exactly the processed, and every acknowledged message has its row |
| InboxTheorems.AckStandsOnARow | backend/pkg/eventbus/consumer.go:132-191 | in runs without purges no message is acknowledged without an inbox row existing at that moment |
| InboxTheorems.AckStandsOnARowDespitePurges | backend/pkg/eventbus/consumer.go:132-191 | nor in runs with purges, when deliveries are handled and answered within a day, events are published once or again within fifteen days, and unreadable messages come with their place in the stream |
| InboxTheorems.PurgeKeepsDeduplication | backend/pkg/eventbus/runtime.go:35-62 | if events are published once or again within fifteen days and handled within a day of delivery, and unreadable messages come with their place in the stream, 14-day retention makes the 30-day purge safe |
| InboxTheorems.AppliedTwiceIffPurged | backend/pkg/eventbus/inbox.go:220-225 | an attempt applies an event again exactly when its row was purged, which is more than thirty days after it was settled |
| InboxTheorems.SettledIsAppliedIffPurged | backend/pkg/eventbus/inbox.go:220-225 | an attempt applies a settled event, processed or discarded, exactly when its row is gone |
| InboxTheorems.RepublicationAfterPurge | backend/pkg/eventbus/inbox.go:220-225 | for every consumer, free worker and reachable state: an event published again is applied a second time iff more than thirty days and a purge lie between |
| InboxTheorems.DiscardedAfterPurge | backend/pkg/eventbus/inbox.go:199-225 | and a discarded event is applied after all under the same condition |
| InboxSafety.StepKeeps | backend/pkg/eventbus/inbox.go:71-225 | every transaction, answer, crash and purge keeps the agreement of rows, effects, history, audit and acknowledgements, and forgets no key |
| InboxSafety.RunKeeps | backend/pkg/eventbus/inbox.go:71-225 | that agreement holds after every run whose inserts come in time |
| InboxRetries.FiveDeliveries | backend/pkg/eventbus/consumer.go:176-190 | when only the handler fails, a message is delivered at most five times and is then acknowledged or still held by its worker |
| InboxRules.HandlingMeans | backend/pkg/eventbus/consumer.go:167-190 | a new event: a commit applies it once and acknowledges; a temporary failure before the fifth delivery leaves no trace and sends it back; a permanent failure or one from the fifth delivery on parks it and acknowledges only once that is written |
| InboxRules.ParkedForAReason | backend/pkg/eventbus/consumer.go:144-190 | in every run an event is parked only after its handler failed for good, its message could not be read, or it was delivered a fifth time |
| InboxRules.DuplicatesAreAcknowledged | backend/pkg/eventbus/inbox.go:74-91 | an event already in the inbox is acknowledged and nothing else |
| InboxRules.UnreadableIsParked | backend/pkg/eventbus/consumer.go:145-160 | a message that cannot be read is parked on its first delivery |
| InboxRules.DeliveryMeans | backend/pkg/eventbus/consumer.go:132-142 | who gets a message and when, under which key and with which attempt number |
| InboxRules.OperatorsDecideParked | backend/pkg/eventbus/inbox.go:171-212 | replay and discard act exactly on parked events, the first applying them once |
| InboxRules.PurgeMeans | backend/pkg/eventbus/inbox.go:220-225 | the purge deletes exactly the rows settled more than 30 days ago |
| InboxConsumer.HandledIs | backend/pkg/eventbus/consumer.go:132-191 | the three steps of handling a message come to one decision: acknowledge, retry or park |
| InboxConsumer.Table.ProcessEvent | backend/pkg/eventbus/inbox.go:71-91 | row and effect together, once per key; a duplicate is no error |
| InboxConsumer.Table.ParkEvent | backend/pkg/eventbus/inbox.go:93-111 | parks or refreshes a parked row, never a settled one |
| InboxConsumer.Table.Handle | backend/pkg/eventbus/consumer.go:132-191 | the code's branches equal the protocol's three steps for every message and every way they end |
| InboxConsumer.Table.ReplayParked | backend/pkg/eventbus/inbox.go:171-197 | applies a parked event and marks it processed, or changes nothing |
| InboxConsumer.Table.DiscardParked | backend/pkg/eventbus/inbox.go:199-212 | discards exactly a parked event |
| InboxConsumer.Table.PurgeProcessed | backend/pkg/eventbus/inbox.go:220-225 | deletes exactly the settled rows older than the keep time and counts them |
| VersionedTable.Converges | backend/pkg/vendorsales/sales.go:131-134 | when each version has one payload, any order, duplication and timing of the same updates ends in the same versions and payloads |
| VersionedTable.PagesConverge | backend/pkg/vendorsales/sales.go:80-136 | and so does any cutting into pages |
| VersionedTable.BatchRefinesEach | backend/pkg/vendorsales/sales.go:80-123 | a page leaves the versions and payloads of applying its statuses one by one |
| VersionedTable.BatchEqualsEachIff | backend/pkg/vendorsales/sales.go:80-123 | the confirmation times agree too, exactly unless the page brings the held version first with another payload and later with the held one |
| VersionedTable.EachEndsWithTheBest | backend/pkg/vendorsales/sales.go:131-134 | one by one, an id ends with the first update of its highest version, or with what was held |
| VersionedTable.HighestWins | backend/pkg/vendorsales/sales.go:131-134 | the version held is at least every version seen |
| VersionedTable.PageOfOne | backend/pkg/vendorsales/sales.go:80-136 | a page of one status is a single update |
| VendorSales.OlderPlansFail | backend/pkg/vendorsales/sales.go:152-181 | once a higher version of a shop arrived, alone or in a page, the fence refuses a plan with an older one after any further statuses and pages |
| VendorSales.ArrivedIsHeld | backend/pkg/vendorsales/sales.go:80-136 | what a status or page brings is held afterwards, or something newer |
| VendorSales.ContestedPageDiffers | backend/pkg/vendorsales/sales.go:85-95 | a valid page of one shop's held version, first with another payload and then as held, leaves another confirmation time than its statuses one by one |
| VendorSales.PagesAndCheckoutsDoNotDeadlock | backend/pkg/vendorsales/sales.go:99-105 | pages being written and checkouts at their fence, each part way through its own sorted ids, never wait for each other in a ring |
| VendorSales.LockEachIff | backend/pkg/vendorsales/sales.go:156-181 | the fence passes exactly when every shop is approved, taking orders and at its planned version |
| VendorSales.Store.Apply | backend/pkg/vendorsales/sales.go:125-136 | upserts a valid status by the version rule and refuses an invalid one |
| VendorSales.Store.ApplyAll | backend/pkg/vendorsales/sales.go:80-123 | the page as one statement; one invalid status refuses the page; versions and payloads as one by one |
| VendorSales.Collect | backend/pkg/vendorsales/sales.go:86-95 | keeps each shop's first status of its highest version |
| VendorSales.SortedKeys | backend/pkg/vendorsales/sales.go:101-105 | the ids in ascending order, whatever order the map yields |
| VendorSales.Columns | backend/pkg/vendorsales/sales.go:106-114 | the parallel columns hold each shop's own values |
| VendorSales.WriteRows | backend/pkg/vendorsales/sales.go:117-121 | one upsert a shop in the order of ids |
| VendorSales.Store.LockApproved | backend/pkg/vendorsales/sales.go:156-181 | passes exactly when every planned shop is sellable, and otherwise reports the first refusal in id order |
| VendorSales.IsUuidIff | backend/pkg/vendorsales/sales.go:39-44 | an id is valid exactly when it is five groups of 8, 4, 4, 4 and 12 hexadecimal digits |
| VendorSales.StatusMeans | backend/pkg/vendorsales/sales.go:125-135 | a newer or repeated status is stored as reported, taking orders unless it says otherwise |
| ProductSales.Store.Apply | backend/pkg/productsales/sales.go:47-57 | upserts a valid status by the version rule and refuses an invalid one |
| ProductSales.Store.LockVisible | backend/pkg/productsales/sales.go:74-95 | passes exactly when every planned product is visible at its version, and otherwise reports the first refusal in id order |
| ProductSales.StatusMeans | backend/pkg/productsales/sales.go:47-56 | a newer or repeated status is stored with the visibility it reported |
| Checkout.OrdersAreFenced | backend/pkg/vendorsales/sales.go:152-155 | with share locks held to the commit, every order ever created had each shop sellable and each product visible at the planned versions when it committed |
| Checkout.OrdersAreReported | backend/pkg/vendorsales/sales.go:152-181 | behind every order of every run stand statuses received before it: one approving each shop without pausing it and one showing each product visible, at exactly the planned versions |
| Checkout.ShopRefusalMeans | backend/pkg/vendorsales/sales.go:156-181 | what each refusal says about the status the shop was last stored with: unknown, approved but paused, or not approved or at another version |
| Checkout.ProductRefusalMeans | backend/pkg/productsales/sales.go:74-95 | the same for products: unknown, or hidden or at another version |
| Checkout.OlderShopPlansFail | backend/pkg/vendorsales/sales.go:152-181 | from any reachable state on, whatever updates, pages and checkouts follow: a plan older than the held version of a shop is refused its lock, and no order with it is ever created, not even by a transaction already open |
| Checkout.OlderProductPlansFail | backend/pkg/productsales/sales.go:73-95 | the same for products |
| Checkout.StepKeeps | backend/pkg/productsales/sales.go:73-95 | no status change passes a lock: what an open checkout locked stays as planned |
| Texts.NoRingOfLockers | backend/pkg/vendorsales/sales.go:99-105 | writers part way through ascending rows never wait for each other in a ring, because each holds only rows before the one it wants |
| Texts.SameLockOrder | backend/pkg/vendorsales/sales.go:99-105 | two sorted lists visit the rows they share in one order |
| RateLimiter.SweepingIsInvisible | backend/gateway/internal/transport/protection.go:127-146 | the limiter that sweeps gives the answers of one that never does, for a running clock |
| RateLimiter.AnswersAreIndependent | backend/gateway/internal/transport/protection.go:127-146 | an answer depends only on the earlier requests with the same key |
| RateLimiter.WindowsAreRecent | backend/gateway/internal/transport/protection.go:131-138 | every kept window started less than two minutes before the last request |
| RateLimiter.NoMoreThanTwice | backend/gateway/internal/transport/protection.go:139-145 | no minute, wherever it starts, passes more of a key than twice its limit less one |
| RateLimiter.TwiceLessOneIsReached | backend/gateway/internal/transport/protection.go:139-145 | for every limit a run reaches that bound |
| RateLimiter.WindowPassesItsLimit | backend/gateway/internal/transport/protection.go:144-145 | one window passes its requests up to the limit and no more |
| RateLimiter.RetryAfterSuffices | backend/gateway/internal/transport/protection.go:159-164 | a refused client that waits out Retry-After, its key unused by others, passes for every limit of at least one |
| RateLimiter.CountersMean | backend/gateway/internal/transport/protection.go:127-146 | the limiter's two numbers per key stand for the whole history: a request passes exactly when, counted from the request that opened its 60-second window, it is within the limit |
| RateLimiter.RetryAfterIsTight | backend/gateway/internal/transport/protection.go:159-164 | the header is the first whole second after the window ends, between 1 and 61 |
| RateLimiter.Limits.Admit | backend/gateway/internal/transport/protection.go:127-146 | the in-place limiter answers and changes as specified |
| RateLimiter.Live | backend/gateway/internal/transport/protection.go:132-136 | the sweep deletes exactly the expired windows, in any order |
| RateRules.EdgeBound | backend/gateway/internal/transport/protection.go:148-170 | whatever is sent, no minute passes more of one address's requests under a rule than twice its limit less one |
| RateRules.EdgeBudgets | backend/gateway/internal/transport/protection.go:74-106 | what one address gets through in any minute: 59 sign-ins, 39 checkouts, 1199 webhooks, 119 support requests, 39 invitations, 19 refund destinations, 239 reports, 39 changes of availability, 119 uploads, 2399 reads |
| RateRules.BudgetsAreGranted | backend/gateway/internal/transport/protection.go:148-170 | a request passes exactly while it is within its rule's budget, counted from the request that opened its minute |
| RateRules.KeysAreSeparate | backend/gateway/internal/transport/protection.go:159-159 | a limiter key belongs to one rule and one address |
| RateRules.LimitIsFixed | backend/gateway/internal/transport/protection.go:74-106 | every key is always asked with the same limit |
| RateRules.FirstMatch | backend/gateway/internal/transport/protection.go:155-158 | finds the first matching rule |
| RateRules.Guard | backend/gateway/internal/transport/protection.go:148-170 | preflights pass uncounted; others are counted under their rule and refused with Retry-After |
| Router.DispatchIsLongestPrefix | backend/gateway/internal/transport/router.go:72-84 | a path goes to the upstream of the longest configured prefix it equals or continues after a slash, and nowhere exactly when there is none |
| Router.OrderDoesNotMatter | backend/gateway/internal/transport/router.go:64-72 | the map's order and the unstable sort do not change dispatch |
| Router.LongestIsUnique | backend/gateway/internal/transport/router.go:77-77 | the longest matching prefix is unique |
| Router.SortRoutes | backend/gateway/internal/transport/router.go:72-72 | sorts in place by falling length, losing no route |
| Router.Sink | backend/gateway/internal/transport/router.go:72-72 | moves one route to its place among the sorted ones |
| Router.List | backend/gateway/internal/transport/router.go:64-71 | lists each configured route once; an upstream that does not parse refuses all |
| Router.Gateway.NewRouter | backend/gateway/internal/transport/router.go:64-72 | the table is the configured routes, longest first |
| Router.Gateway.Dispatch | backend/gateway/internal/transport/router.go:74-84 | the scan finds the longest prefix's upstream or nothing |
| Paging.ReadsInOrder | backend/pkg/casesla/store.go:143-180 | however the list changes between pages no row is read twice, and all come newest first |
| Paging.ReadsWhatStays | backend/pkg/casesla/store.go:143-180 | a row that stays in the list is read by every client that reaches the end |
| Paging.StillListIsReadWhole | backend/pkg/bulkimport/store.go:167-195 | an unchanging list is read whole, each row once, within enough pages |
| Paging.List | backend/pkg/casesla/store.go:143-180 | one page and its cursor; limits outside 1 to 100 are refused |

## Left out

- Owners' `Kind.Plan` and `Kind.Apply`, event handlers, the shop hook and the
  publisher: foreign code, present only as steps or parameters that succeed,
  fail or lose their answer. An Apply is one counted effect.
- SHA-256: an abstract function of the preview's lines and of a payload. Lines
  are records; the text form, where a target may contain the separator, is not
  claimed to be injective.
- Choice of the next job or row by `ORDER BY ... SKIP LOCKED` in the import
  engine: any claimable one may be taken, so the results hold for every order.
- The search for an earlier job with the same file hash: its answer is a
  parameter of confirming, since two jobs are not locked together.
- Import audit events, error reports, exports, stored files and their expiry,
  signed links, authorisation and template listing.
- Byte limits, UTF-8 checks and quoting of CSV, and the rules for cell contents:
  entries arrive split into cells; trimming, lower-casing and the cell rules are
  parameters. Cell lengths are in characters of the model.
- The outbox row of a case notice: `CaseSla` keeps what is enqueued for whom,
  `CaseDelivery` how a row is delivered and what a notice replay resets; the two
  are not one state.
- `next_check_at` of work items: a scan gets any batch of at most a hundred
  distinct active items.
- Audit rows of work items, resource ids and URLs: items are keyed by one id
  for the pair of resource type and resource id.
- Locking of the owner's resource before a command: a failure there leaves the
  tables alone like any other failed transaction.
- Two delivery workers at once with clocks further apart than a lease:
  `CaseDelivery` has one worker, as its attempt bound needs.
- Overflow of 64-bit durations and versions: integers are unbounded.
- Random jitter: the delivery backoff adds an arbitrary amount below ten
  seconds, row and message redelivery delays are arbitrary.
- Broker internals beyond at-least-once delivery within the retention time: the
  ten-minute duplicate window, the size limit of the stream, ack timeouts.
- Stored envelopes and error texts of parked events; an envelope that cannot be
  read back makes a replay fail, which changes nothing.
- Other spellings of a UUID that the parser accepts (upper case, braces, URN):
  ids are valid in the canonical form only. A page that names one shop in two
  spellings is therefore not modelled; the code's map by spelling would keep
  both, and its one statement would then touch the same row twice.
- HTTP fetching of live statuses and the reconciliation loop's timer: each page
  it fetches is one `ApplyAll`.
- Floating-point seconds in Retry-After: whole seconds are taken exactly.
- Windows as shared pointers in the limiter's map: the map holds their values.
- Response headers, CORS, body limits, path filtering and reverse proxying in
  the gateway.
- Encoding of page cursors, and the ascending listing of import rows, which has
  the same shape as the two lists modelled.
- Logging, metrics, tracing and configuration.
