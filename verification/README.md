# Verified models of the back end's shared-state protocols

The back end is a FastAPI service over Postgres. Most of it is plumbing; a few modules are protocols that
several processes run against shared tables. This project models those protocols in Dafny and proves what
they are for.

- **Job queue.** Workers share `automation_jobs` through leases with fresh tokens. `JobTable` is the table and
  every transaction as an atomic step, `JobSafety` the invariant, `JobRuns` the theorems over whole runs,
  `JobLeases` what a lease is worth in time, `JobFairness` the bound on overtaking, `Gate` the approval gate across
  modules, `JobQueue` the queue's code as a class whose methods are proved to take exactly those steps, and what
  they promise column by column. A worker's snapshot of its job is kept apart from the row and may be stale: any
  snapshot ever handed out may be used at any time.
- **Approvals and role changes.** `Approvals` is the decision machine, `AgentNames` the case-folded comparison of
  agents, `RoleChanges` the two-person role change, as a state machine and as a class.
- **Audit ledger.** `AuditChain` is the hash chain, with the hash a free constructor; `BlockEncoding` says when the
  text that is hashed determines its fields. `FallbackStore`, `FallbackSafety` and `FallbackLedger` are the SQLite
  fallback and its drain, with a crash possible between any two steps. `ChainVerifier`,
  `ChainPasses`, `ChainAlerts`, `ChainAlarms` and `HonestChains` are the scheduled verifier: against the full walk,
  what it alerts over repeated passes, and beside honest writers.
- **Assistant.** `ToolLedger` is the execution ledger with transactions in flight side by side, `Undo` and
  `UndoStore` the action ledger, `Admission` the limits on turns, `Ladder` the provider ladder against adversarial
  models, and `TierRuns` what each of its tiers has to make of the replies it gets.
- **Arithmetic and windows.** `Wilson` is the score interval over exact reals, `AccessWindows` the coalescing of
  platform reads, `DenialAlerts` the alert on repeated denials.

Each protocol is a state machine whose runs the main theorems quantify over. Where the source updates things in
place, a class has the same statements as methods, each proved to take the machine's steps: one call of
`ToolLedger.Executor.Execute` is a run of steps by `ToolLedger.ExecuteIsARun`, one run of
`ChainVerifier.Verifier.VerifySegment` is the pages and the close of `ChainAlarms` by `ChainAlarms.UndisturbedRun`. The
drain's methods take the steps of `FallbackStore`. For the ladder and the windows, which are single programs, the
methods' own contracts are the theorems.

## Findings

Where the code does not do what it or its documentation says, the model follows the code; a lemma names the
exact condition or an input.

1. **Gate.** Revising a contract draft revokes an approval that is already granted
   (`backend/contracts_api.py:1428-1449`), even when a job enqueued under it is still unfinished. The queue's approval
   gate is then an admission check and not an invariant: unfinished jobs keep valid approvals in every state of a run
   if and only if no step revokes an approval that one of them cites (`Gate.GateExactly`, `Gate.GateCanFail`). The
   handler of the contract vault re-checks the approval, its payload and the revision when it runs
   (`backend/contracts_api.py:2163-2190`), so such a job is refused there and not by the queue.
2. **Emptied chain.** `_pg_last_hash` answers the genesis sentinel on an empty table
   (`backend/audit_ledger.py:285-293`), also when expiry emptied it. The next honest row then breaks the chain:
   verify_chain is true in every state of a run if and only if no append of it restarts an emptied chain or carries a
   respelled id, finding 11 (`HonestChains.IntactExactly`, `HonestChains.HonestRunAlarms`).
3. **Alarms of the verifier.** Each page of a verification run sees the table as it then is. Over every run of honest
   steps, nothing was found broken so far if and only if no page so far started before the first row with another hash
   than that row names, or held a row whose hash does not recompute (`ChainAlarms.QuietExactly`; without respelled
   ids only the first, `HonestChains.DetachedExactly`). On a chain that stays intact this is exactly a page read after
   an expiry overtook the run (`HonestChains.FalseAlarmExactly`, `HonestChains.OvertakenRunAlarms`).
4. **Alerts.** Migration 0148 promises that a break alerts once. From the second pass over a table on, a run alerts if
   and only if its segment has a break and some other segment of the pass has one too
   (`ChainAlerts.RepeatAlertsExactly`): a break alerts once if and only if no other segment is broken
   (`ChainAlerts.AlertsOnceExactly`). The break kept in the bookkeeping row is the last one
   (`ChainAlerts.KeptBreakIsLast`). Rows at or below the anchor's sequence number are never seen by the segments
   (`ChainPasses.LowRowsDisagree`).
5. **Failed calls.** The docstring of `_ledger_replay` calls a failed call safe to retry. The claim is a plain
   INSERT, so a recorded failure closes its identity for good (`ToolLedger.RowClosesIdentity`). For the same
   reason, a tier that falls through leaves call indexes on which the next tier's tools do nothing
   (`Ladder.Turn.ExecuteSafeTool`).
6. **Already applied.** A tool that declines commits its claim too. If its receipt is lost, a duplicate is told that
   the change was applied (`ToolLedger.AlreadyCanBeUntrue`). The claim behind the reply is unique
   (`ToolLedger.AnswersAreBacked`); the reply is untrue exactly when that claim changed no record.
7. **Undo conflict.** The status `conflict` is written in the transaction that the refusal rolls back
   (`backend/ai_chat_store.py:1946-1951`), so no action ever carries it (`Undo.ConflictIsNeverKept`).
8. **Third turn.** `update_assistant` does not look at the status it overwrites. A turn that the sweep timed out can
   start streaming again beside two newer ones (`Admission.ThirdTurnExactly`, `Admission.ThreeAtOnce`).
9. **Withdrawn onboarding.** Resubmitting an onboarding writes the requester as the decider of its own role-override
   approval, with status revoked (`backend/agent_profile.py:227-237`). All settled role overrides name a decider other
   than their requester if and only if no step so far was such a withdrawal by the requester
   (`RoleChanges.DeciderDiffersExactly`, `RoleChanges.WithdrawalIsBySelf`). An approved, rejected or expired one always
   does (`RoleChanges.TwoPersonRule`).
10. **Early denials.** The default of the last alert is 0.0 on a monotonic clock, so no alert is raised while that
    clock is below five minutes (`DenialAlerts.DenialWatch.Track`).
11. **Spelled ids.** record() hashes a uuid as it was given, and the row gives it back as its column spells it
    (`backend/audit_ledger.py:244-254`, `backend/audit_ledger.py:420-425`). A directly recorded row links if and only
    if its uuids were spelled canonically (`AuditChain.InsertVerifies`, `FallbackSafety.PgVerifiesExactly`,
    `HonestChains.RespelledIdAlarms`). A drained row always links, and gives its entry back if and only if they were
    (`FallbackStore.RestoredRelinked`).

## Model

| member | source | states |
|---|---|---|
| `JobSafety.TokenMeansCurrent` | backend/automation_jobs.py:348-365 | a token that matches a live row belongs to the job's latest claim, and the snapshot's attempt count and limit are the row's |
| `JobSafety.ReapKeeps` | backend/automation_jobs.py:314-345 | reaping exhausted leases keeps the invariant of the table |
| `JobSafety.LeaseUpdateKeeps` | backend/automation_jobs.py:348-498 | every leased call, from any snapshot ever handed out, keeps the invariant |
| `JobSafety.EnqueueKeeps` | backend/automation_jobs.py:138-227 | enqueue keeps the invariant, keys distinct included |
| `JobSafety.ClaimKeeps` | backend/automation_jobs.py:237-298 | a claim, with its reaping, keeps the invariant |
| `JobSafety.JobsStay` | backend/automation_jobs.py:190-213 | no step deletes a job, changes the columns it was enqueued with, or lowers its attempt count; its payload stays until it is finished |
| `JobSafety.NextKeeps` | backend/automation_jobs.py:138-498 | every step of workers, producers, approvers and the clock keeps the invariant |
| `JobSafety.RunKeeps` | backend/automation_jobs.py:138-498 | the invariant holds in every reachable state |
| `JobSafety.InitInv` | backend/automation_jobs.py:138-498 | the empty table satisfies the invariant |
| `JobRuns.StaleWorkerIsFenced` | backend/automation_jobs.py:348-365 | a worker whose job was claimed again changes nothing, whatever it calls |
| `JobRuns.LeasedRowChanges` | backend/automation_jobs.py:348-365 | a leased row changes only by its latest claimant or by a claim that finds the lease expired |
| `JobRuns.TerminalForever` | backend/automation_jobs.py:436-498 | succeeded, partial, dead-letter and cancelled rows hold no lease and never change again, except that retention may empty payload and result |
| `JobRuns.CompletedOnce` | backend/automation_jobs.py:436-462 | over any run at most one completion of a job takes effect |
| `JobRuns.CancelStops` | backend/sales_api.py:1244 | a cancelled job is never leased again, and only a waiting one is cancelled |
| `JobRuns.SweptForever` | backend/db/migrations/0122_customer_data_lifecycle.sql:665-672 | once retention swept a finished job its content is gone for good and its state stays |
| `JobRuns.RetryIsSound` | backend/automation_jobs.py:464-506 | the retry decision taken from the snapshot is the one the row would give: dead-lettered only when attempts are spent or the error is terminal, else due again after the backoff of the attempt the row counts |
| `JobRuns.BackoffBounds` | backend/automation_jobs.py:472-498 | the retry delay lies between its first value and its cap |
| `JobRuns.BackoffShape` | backend/automation_jobs.py:472-498 | the delay starts at five seconds, doubles with every attempt up to its cap, reached from the eleventh on, and never falls |
| `JobRuns.AttemptsAreSound` | backend/automation_jobs.py:299-310 | in every reachable state attempts never exceed the limit, a failed job has attempts left, and its attempt rows are numbered 1 up to its count |
| `JobRuns.NeverStuck` | backend/automation_jobs.py:237-298 | a job that is not finished becomes claimable or reapable after a finite wait, and a claim then does not come back empty |
| `JobRuns.ClaimsAreAttempts` | backend/automation_jobs.py:278-298 | the claims of a run are exactly the attempts counted on the rows |
| `JobRuns.ClaimsAreBounded` | backend/automation_jobs.py:278-298 | the claims of a run are at most the sum of the attempt limits |
| `JobRuns.JobsKeepIdentity` | backend/automation_jobs.py:190-213 | over a run a job keeps its number and every column written only at enqueue: tenant, key, queue, priority, limit, approval, times |
| `JobRuns.SameKeySameJob` | backend/automation_jobs.py:190-225 | any two enqueues of a run with the same tenant and key are answered with the same job |
| `JobLeases.FullLease` | backend/automation_jobs.py:278-284 | a claim, a start, a progress report and an extension each leave a lease of the full length from now on |
| `JobLeases.LeaseHolds` | backend/automation_jobs.py:368-432 | over every run: a job claimed or renewed at one step, and not completed or failed since, is neither claimed nor reaped by any step up to a lease length later, and stays with the same claim |
| `JobLeases.NeverOvertaken` | backend/automation_jobs.py:421-432 | a worker that renews at least once in every lease length keeps its job: no other step claims it |
| `JobLeases.ClaimableAgainExactly` | backend/automation_jobs.py:263-277 | left alone since its last renewal, a job with attempts left is claimable if and only if more than the lease length has passed and its brokerage is open; without attempts it is reapable exactly then |
| `JobLeases.DueOverRuns` | backend/automation_jobs.py:263-277 | in every reachable state a leased job is past its scheduled and its retry time |
| `JobFairness.AgedJobUntouched` | backend/automation_jobs.py:240-262 | while it is left waiting, an aged job's row does not change and stays aged |
| `JobFairness.ClaimRespectsAge` | backend/automation_jobs.py:240-289 | with an aged job waiting, a claim on its queue takes it or an aged job ordered no later |
| `JobFairness.AheadStep` | backend/automation_jobs.py:240-289 | every such claim uses up one attempt of the unfinished jobs ordered no later, and nothing adds to them |
| `JobFairness.BoundedOvertaking` | backend/automation_jobs.py:240-289 | an aged job is passed over at most as often as the unfinished jobs ordered no later had attempts left, whatever fresh jobs arrive |
| `Gate.ApprovalStep` | backend/approval_service.py:172-212 | approval rows keep what was asked; a refused, expired or revoked one never changes and a granted one only by a draft revision |
| `Approvals.DecisionExactly` | backend/approval_service.py:96-212 | a decision goes through if and only if an entitled caller decides a pending approval of the right kind; then it is approved or rejected as the caller says while valid, expired once it is not, and no other row moves |
| `Gate.SettledByRuling` | backend/approval_service.py:186-212 | over every run: an approved, rejected or expired approval was ruled so by an earlier step of an entitled caller, its decider, at a time that fits its expiry |
| `Gate.NoJobWithoutYes` | backend/automation_jobs.py:170-190 | over every run: a job whose risk needs an approval is let in only after an entitled caller said yes, in time, to its tenant's very payload, and while that approval is valid |
| `Gate.GateStep` | backend/automation_jobs.py:170-227 | a step keeps every unfinished job admitted if and only if it is not a draft revision that revokes an approval such a job cites |
| `Gate.GateExactly` | backend/contracts_api.py:1428-1449 | over a run the gate holds in every state if and only if no step is such a revision |
| `Gate.WithdrawalOpens` | backend/contracts_api.py:1428-1449 | such a revision leaves an unfinished job citing a revoked approval |
| `Gate.OrphanForever` | backend/contracts_api.py:1428-1449 | a job whose approval was withdrawn stays without one |
| `Gate.GateCanFail` | backend/contracts_api.py:1428-1449 | a concrete run from the empty system that ends with a queued job citing a revoked approval |
| `JobQueue.Queue.EnqueueJob` | backend/automation_jobs.py:138-227 | takes the enqueue step; lets in exactly the admissible requests, files each column as asked or answers with the job of that tenant and key |
| `JobQueue.Queue.ReapExhaustedLeases` | backend/automation_jobs.py:314-345 | the loop over the table dead-letters exactly the jobs whose last lease ran out, and counts them |
| `JobQueue.Queue.OldestAged` | backend/automation_jobs.py:240-262 | finds an aged job no other aged one of the queue precedes, or that there is none |
| `JobQueue.Queue.BestReady` | backend/automation_jobs.py:263-277 | finds a ready job of the queue that no other beats on priority and time, or that there is none |
| `JobQueue.Queue.TakeLease` | backend/automation_jobs.py:278-310 | the row gets the new lease, its attempt is counted and an attempt row added |
| `JobQueue.ClaimGivesOut` | backend/automation_jobs.py:237-298 | what a claim gives out, column by column, and that it is the right choice among the jobs that may run |
| `JobQueue.Queue.ClaimNextJob` | backend/automation_jobs.py:230-311 | takes the claim step: gives out a due job of the queue with attempts left and an open tenant, the oldest starved one, else the first by priority and time, leased for the full length; nothing only when there is none |
| `JobQueue.Queue.MarkJobRunning` | backend/automation_jobs.py:368-382 | takes the leased step: running, its lease the full length from now, nothing else; or says that the lease was lost and changes nothing |
| `JobQueue.Queue.HeartbeatJob` | backend/automation_jobs.py:385-403 | takes the leased step: progress kept within bounds, lease the full length from now, nothing else |
| `JobQueue.Queue.ExtendLease` | backend/automation_jobs.py:406-418 | takes the leased step: lease the full length from now and nothing else |
| `JobQueue.Queue.CompleteJob` | backend/automation_jobs.py:436-461 | takes the leased step: succeeded or partial, lease gone |
| `JobQueue.Queue.FailJob` | backend/automation_jobs.py:464-506 | takes the leased step, deciding from the snapshot: given up, or due again after the backoff |
| `JobQueue.Queue.WorkOnce` | backend/automation_jobs.py:640-690 | one undisturbed turn of a worker ends with the claimed job recorded as its handler's outcome says |
| `AgentNames.PaddingIgnored` | backend/approval_service.py:90-102 | blanks around an agent's name do not matter |
| `AgentNames.CaseIgnored` | backend/approval_service.py:90-102 | names equal but for case are the same agent |
| `AgentNames.SpellingIsNotIdentity` | backend/approval_service.py:90-102 | no respelling by case and blanks makes an agent somebody else |
| `RoleChanges.DecidedOnce` | backend/approval_service.py:172-212 | a decided approval never changes, a contract draft's aside, so it is decided at most once, and what was asked stays |
| `RoleChanges.NextKeeps` | backend/admin_ops.py:595-713 | every step keeps: events match their drafts one to one, and the decider of each is not its requester |
| `RoleChanges.RunKeeps` | backend/admin_ops.py:595-713 | the same in every reachable state |
| `RoleChanges.TwoPersonRule` | backend/approval_service.py:105-126 | in every reachable state each approved or rejected override was decided by someone other than its requester, case and blanks aside |
| `RoleChanges.RoleChangesOnlyByOverride` | backend/admin_ops.py:656-713 | beside joining, suspension, reinstatement and closure, a user's role changes only by applying an approved draft, to the draft's role, with one event recorded |
| `RoleChanges.OwnerRemains` | backend/admin_ops.py:683-695 | a step takes a brokerage's last active owner if and only if it is the final sign-out of its closure: no role change and no suspension (backend/brokerage_onboarding.py:882-903) does |
| `RoleChanges.OwnerAlwaysRemains` | backend/privacy_lifecycle.py:227-234 | a brokerage with an active owner keeps one over every run without that sign-out |
| `RoleChanges.SettledByRuling` | backend/approval_service.py:186-212 | over every run: an approved, rejected or expired approval was ruled so by an earlier deciding step of an entitled caller, its decider, at a time that fits its expiry |
| `RoleChanges.ExecutedExactly` | backend/admin_ops.py:644-713 | the two steps of a call change the role if and only if the approval is pending and valid, the caller an owner who did not ask for it, and the account as the draft saw it with another owner left |
| `RoleChanges.LosesAccessExactly` | backend/brokerage_onboarding.py:878-901 | an account is deactivated only by an owner of its brokerage other than itself, over an owner only by a platform admin and never the last, or by the closure; each time its epoch moves |
| `RoleChanges.SettledByAnotherExactly` | backend/agent_profile.py:227-237 | the step that settles a pending role override names its requester as decider if and only if it is a withdrawal by the requester |
| `RoleChanges.DeciderDiffersExactly` | backend/agent_profile.py:227-237 | over every run all settled role overrides have another decider if and only if no step so far was such a withdrawal |
| `RoleChanges.WithdrawalIsBySelf` | backend/agent_profile.py:227-237 | a concrete run from the empty desk that ends with a requester as decider: an onboarding filed and filed again |
| `RoleChanges.RoleDesk.RequestRoleChange` | backend/admin_ops.py:595-641 | takes the request step exactly when an owner asks for another active account's real change, with each refusal in the code's order; the request is pending for a day |
| `RoleChanges.RoleDesk.DecideRow` | backend/approval_service.py:141-212 | decides exactly the pending approvals the caller is entitled to: approved or rejected as the caller says before the expiry, expired from then on, signed by the caller, no other row touched |
| `RoleChanges.RoleDesk.ExecuteRoleChange` | backend/admin_ops.py:644-713 | takes the decision step and, when it approved, the apply step; changes the role, with one event, if and only if everything it needs still holds |
| `RoleChanges.RoleDesk.ApplyDraft` | backend/admin_ops.py:669-713 | takes the apply step; a refusal inside leaves users and events as they were |
| `AuditChain.VerifiesPointwise` | backend/audit_ledger.py:507-531 | a chain verifies exactly when none of its links is broken |
| `AuditChain.VerifiesConcat` | backend/audit_ledger.py:507-531 | two stretches verify joined exactly when each does from where the other ends |
| `AuditChain.AppendKeeps` | backend/audit_ledger.py:285-293 | a row sealed onto the head keeps the chain verifying |
| `AuditChain.InsertVerifies` | backend/audit_ledger.py:244-254 | a recorded row, hashed over ids as given and read back as their columns spell them, keeps the chain verifying if and only if the spellings are canonical |
| `AuditChain.HashesDistinct` | backend/audit_ledger.py:225-236 | no hash occurs twice in a verifying chain |
| `AuditChain.SameHeadSameTail` | backend/audit_ledger.py:225-266 | two verifying chains with the same last hash agree row for row as far as the shorter reaches, whatever their anchors |
| `AuditChain.TamperEvidence` | backend/audit_ledger.py:225-266 | under a fixed anchor and last hash, only the original rows verify |
| `BlockEncoding.BlockInjective` | backend/audit_ledger.py:225-236 | the joined block determines its eight fields when the first six and the previous hash hold no bar, even if the metadata does |
| `BlockEncoding.BarInActionCollides` | backend/audit_ledger.py:225-236 | with a bar in a field that condition fails: two different entries share one block |
| `FallbackStore.RestoredRelinked` | backend/audit_ledger.py:722-737 | a drained row gives its entry back with the uuids respelled: the entry itself if and only if they were spelled canonically |
| `FallbackStore.AppendDelivers` | backend/audit_ledger.py:708-740 | in any stores, tampered ones included, the append loses nothing, every row it adds is the first copy of one of its rows with that row's content and hash and the stamp given, and every one of its rows is there afterwards |
| `FallbackStore.CommitDelivers` | backend/audit_ledger.py:722 | the commit step stamps every row it adds with the verdict read with its batch |
| `FallbackSafety.KnownExactly` | backend/audit_ledger.py:708-740 | the lookup before an append finds a row exactly when that fallback row was appended before |
| `FallbackSafety.CommitBatch` | backend/audit_ledger.py:708-740 | appending a batch sends exactly the rows not sent yet, in order, and the chain still verifies |
| `FallbackSafety.AdvanceKeeps` | backend/audit_ledger.py:114-124 | deleting a prefix and moving the anchor keeps the remaining rows verifying and the totals right |
| `FallbackSafety.ReleaseKeeps` | backend/audit_ledger.py:649-664 | releasing an appended batch keeps the invariant, rows inserted meanwhile included |
| `FallbackSafety.HeadIsLogHead` | backend/audit_ledger.py:324-333 | the chain head a writer reads does not depend on how much was released or purged |
| `FallbackSafety.InsertKeeps` | backend/audit_ledger.py:824-863 | an insert whose head was read before a release still links |
| `FallbackSafety.StepKeeps` | backend/audit_ledger.py:666-740 | every step, crash included, keeps the invariant |
| `FallbackSafety.RunKeeps` | backend/audit_ledger.py:666-740 | the invariant holds in every reachable state |
| `FallbackSafety.AtMostOneCopy` | backend/audit_ledger.py:708-740 | no fallback row is in the Postgres chain twice |
| `FallbackSafety.ReleasedMeansCopied` | backend/audit_ledger.py:649-664 | a row released by the drain is in the Postgres chain, and its entry can be read back but for the spelling of its uuids |
| `FallbackSafety.PgVerifiesExactly` | backend/audit_ledger.py:244-254 | over every run, drains and crashes included, the Postgres chain verifies if and only if every directly recorded entry spelled its uuids canonically |
| `FallbackSafety.CopiesInOrder` | backend/audit_ledger.py:708-740 | copies stand in Postgres in SQLite order |
| `FallbackSafety.CrashSafeDrain` | backend/audit_ledger.py:666-740 | in every reachable state the SQLite chain verifies, and the Postgres chain exactly when no directly recorded id was respelled; drained, purged and held rows add up to the rows ever inserted; each drained row has exactly one copy, in order, with its content up to the spelling of uuids |
| `FallbackLedger.WalkChain` | backend/audit_ledger.py:257-266 | the loop answers true exactly when the rows verify from the anchor |
| `FallbackLedger.Ledger.RecordEntry` | backend/audit_ledger.py:370-470 | takes the Postgres step when Postgres answers and its uuid columns take the ids, else the fallback steps; the new row holds the entry and names the head; the row is lost only when SQLite is full |
| `FallbackLedger.Ledger.AdvanceAnchor` | backend/audit_ledger.py:114-124 | deletes the rows up to an id, and remembers anchor and total |
| `FallbackLedger.Ledger.PurgeExpired` | backend/audit_ledger.py:127-142 | takes the purge step; no row older than the limit is left |
| `FallbackLedger.Ledger.IsKnown` | backend/audit_ledger.py:716-726 | answers whether the row was appended before |
| `FallbackLedger.Ledger.AppendFallbackRows` | backend/audit_ledger.py:708-740 | takes the commit step; every row it adds carries the verdict it was given, and the content and hash of a row of the batch not there before |
| `FallbackLedger.Ledger.SqliteRelease` | backend/audit_ledger.py:649-664 | takes the release step and counts what remains |
| `FallbackLedger.Ledger.DrainBatch` | backend/audit_ledger.py:684-702 | one turn takes exactly the three steps; every row it adds is stamped with the verdict of the drain so far, its own walk included |
| `FallbackLedger.TurnDone` | backend/audit_ledger.py:684-702 | such a turn moves one batch, delivers it and stamps it with that verdict |
| `FallbackLedger.Ledger.DrainFallback` | backend/audit_ledger.py:666-706 | an undisturbed drain of any store moves every row that fits; each row it adds to Postgres is stamped intact if and only if the rows up to the end of its batch verify from the old anchor; it reports one walk's verdict over all of them and keeps every guarantee of an honest run |
| `FallbackLedger.TurnsDrain` | backend/audit_ledger.py:684-702 | any number of turns in a row moves what fits in them, with the verdict of one walk |
| `FallbackLedger.TurnsDeliver` | backend/audit_ledger.py:684-702 | turns in a row stamp every row they move with the verdict on everything up to the end of its batch |
| `FallbackLedger.BatchEndIs` | backend/audit_ledger.py:684-702 | a row's batch ends at the next multiple of the batch size, or with the last row |
| `FallbackLedger.AppendedConcat` | backend/audit_ledger.py:708-740 | appending two batches one after the other is appending both at once |
| `FallbackLedger.BatchesJoin` | backend/audit_ledger.py:257-266 | walking batch after batch from the moving anchor is walking them all |
| `FallbackLedger.MovedIsMin` | backend/audit_ledger.py:684-702 | a drain moves the smaller of the rows held and the capacity of its batches |
| `FallbackLedger.TurnMoves` | backend/audit_ledger.py:684-702 | on stores an honest run reached, a batch verifies and its three steps keep every guarantee |
| `ChainVerifier.FirstBreakConcat` | backend/audit_ledger.py:783-797 | the first break of two stretches is that of the first, else that of the second from its end |
| `ChainVerifier.AfterTail` | backend/audit_ledger.py:785-795 | the rows after the last one read are the rest of the rows |
| `ChainVerifier.Verifier.Scan` | backend/audit_ledger.py:783-797 | whatever the page size, the paging loop checks the same rows, reports their first break and ends at the same cursor |
| `ChainVerifier.Verifier.VerifySegment` | backend/audit_ledger.py:763-818 | one run gives the report and the bookkeeping row of the specification, for every page size; broken exactly with a break, empty exactly when the pass has seen no row past the anchor, the rows of the pass counted |
| `ChainPasses.WalkIsVerifyChain` | backend/audit_ledger.py:507-531 | the full walk finds a break exactly when verify_chain is false |
| `ChainPasses.BreakIsFirst` | backend/audit_ledger.py:789-792 | the break found names a row, and the rows before it verify |
| `ChainPasses.PassAgrees` | backend/audit_ledger.py:763-818 | whatever the budgets, one complete pass over a fixed table checks each row once, reports a break if and only if verify_chain is false, and first the full walk's first break |
| `ChainPasses.FirstIsSmallest` | backend/audit_ledger.py:789-792 | no run of the pass reports a smaller sequence number |
| `ChainPasses.PassEnds` | backend/audit_ledger.py:783-788 | a pass ends after at most one run more than there are rows |
| `ChainPasses.LowRowsDisagree` | backend/audit_ledger.py:773-777 | with rows at or below the anchor's number, which the segments never see, and any row above, walk or pass finds a break: they are never both content |
| `ChainAlerts.RunAlerts` | backend/audit_ledger.py:813-818 | run k of a pass reports the break of its segment and alerts exactly when it is not the last one before it |
| `ChainAlerts.OnePassOverIsOnePass` | backend/audit_ledger.py:783-788 | budgets make one complete pass exactly when all but the last are used up by the rows |
| `ChainAlerts.FirstPassAlerts` | backend/audit_ledger.py:813-818 | the first pass alerts once for every broken segment |
| `ChainAlerts.RepeatAlertsExactly` | backend/audit_ledger.py:813-818 | on every later pass, for any table above the anchor and any budgets, a run alerts if and only if its segment has a break and some other segment has one too |
| `ChainAlerts.AlertsOnceExactly` | backend/db/migrations/0148_audit_chain_verification.sql:12-13 | a break is silent on every later pass if and only if no other segment is broken |
| `ChainAlerts.KeptBreakIsLast` | backend/audit_ledger.py:799-812 | after a pass the bookkeeping row keeps the break of the last broken segment |
| `ChainAlarms.ChainedBreak` | backend/audit_ledger.py:789-792 | over rows that name each other only the first link and the hashes themselves can be broken |
| `ChainAlarms.AfterPlaced` | backend/audit_ledger.py:785-788 | the rows after a cursor that names a row, or stands before the first, are a suffix, which continues from it unless the cursor is detached |
| `ChainAlarms.PageExactly` | backend/audit_ledger.py:783-797 | the next page notes a break if and only if it starts detached or holds a row whose hash does not recompute |
| `ChainAlarms.StepExactly` | backend/audit_ledger.py:763-818 | every step, restarts and respelled ids included, keeps the rows chained and every cursor placed, and disturbs the quiet if and only if it is such a page |
| `ChainAlarms.QuietExactly` | backend/audit_ledger.py:763-818 | at any point of any run nothing was found broken so far if and only if no such page was read so far |
| `ChainAlarms.UndisturbedRun` | backend/audit_ledger.py:763-818 | page by page, a run that nothing disturbs ends in the bookkeeping row of the one-step specification |
| `HonestChains.AppendExactly` | backend/audit_ledger.py:285-293 | an append keeps an intact chain intact if and only if it neither restarts an emptied one nor carries a respelled id |
| `HonestChains.ExpiryKeepsIntact` | backend/db/migrations/0122_customer_data_lifecycle.sql:604-637 | expiry of a prefix leaves an intact chain intact from its checkpoint |
| `HonestChains.IntactExactly` | backend/audit_ledger.py:507-531 | verify_chain is true in every state of a run if and only if no append of it does either |
| `HonestChains.RestartIsReported` | backend/audit_ledger.py:507-531 | after a restart verify_chain is false and its first break the restarting row, whatever follows, until expiry removes that row |
| `HonestChains.DetachedExactly` | backend/audit_ledger.py:783-797 | over every run without a respelled id, restarts included, nothing was found broken so far if and only if no page so far started detached |
| `HonestChains.NamesStay` | backend/db/migrations/0122_customer_data_lifecycle.sql:604-637 | every place at or after the checkpoint keeps its name |
| `HonestChains.StandsStill` | backend/db/migrations/0122_customer_data_lifecycle.sql:604-637 | a cursor that an expiry passes has a shorter history than the new checkpoint |
| `HonestChains.AlarmIsPastExpiry` | backend/audit_ledger.py:783-797 | on an intact chain the alarming pages are exactly the non-empty ones read past an expiry |
| `HonestChains.FalseAlarmExactly` | backend/audit_ledger.py:763-818 | on a chain that stays intact nothing was found broken so far if and only if no such page was read so far |
| `HonestChains.HonestRunAlarms` | backend/audit_ledger.py:285-293 | a concrete run of honest steps with a restart that ends in a stored break |
| `HonestChains.OvertakenRunAlarms` | backend/audit_ledger.py:783-797 | a concrete honest run on an intact chain in which a page read past an expiry notes a break |
| `HonestChains.RespelledIdAlarms` | backend/audit_ledger.py:420-425 | one entry with a respelled id turns verify_chain false and the next page notes a break |
| `ToolLedger.StepKeeps` | backend/ai_chat_store.py:1114-1263 | every step keeps: one holder of an identity, one log entry per completed row, and no row is rewritten |
| `ToolLedger.RunKeeps` | backend/ai_chat_store.py:1114-1263 | the same in every reachable state |
| `ToolLedger.RowsStayForever` | backend/ai_chat_store.py:1194-1263 | a committed row keeps its tool, arguments and status, and a stored receipt is never replaced: a failure record never replaces a completed claim |
| `ToolLedger.AtMostOnce` | backend/ai_chat_store.py:1168-1191 | over any interleaving of duplicates, rollbacks, crashes and lost receipts, at most one committed transaction of an identity changes records |
| `ToolLedger.RowClosesIdentity` | backend/ai_chat_store.py:1184-1191 | once any row stands, failed ones included, no later transaction of that identity commits a change |
| `ToolLedger.OtherWorkNeverRuns` | backend/ai_chat_store.py:1137-1141 | another tool or other arguments under a used identity never run and are told nothing but a refusal |
| `ToolLedger.AnswersAreBacked` | backend/ai_chat_store.py:1142-1165 | an answer that is not a refusal is backed by exactly one committed claim of that work, and a fresh or replayed receipt is the one that claim's execution gave |
| `ToolLedger.RepeatIsAnswered` | backend/ai_chat_store.py:1142-1165 | over every run: a call that looks after its work was committed under its identity is answered at once, with that claim's receipt if attached, else with "already applied", never refused |
| `ToolLedger.FirstCallIsFresh` | backend/ai_chat_store.py:1168-1191 | a call under a free identity may claim; once its handler answers it is told that answer, fresh, and nothing else, and its row stands for good |
| `ToolLedger.AlreadyCanBeUntrue` | backend/ai_chat_store.py:1151-1165 | a concrete run in which the reply "already applied" is given for a call that changed nothing |
| `ToolLedger.Executor.Execute` | backend/ai_chat_store.py:1844-1932 | one undisturbed call: a repeat of completed work gets the stored receipt or "already applied" and changes nothing, other work or a failed row a refusal, a first call its handler's answer, its row and its commit |
| `ToolLedger.ExecuteIsARun` | backend/ai_chat_store.py:1844-1932 | such a call is a run of the machine's steps from any world in which nobody else holds the identity |
| `Undo.StepKeeps` | backend/ai_chat_store.py:1030-1057 | every step keeps versions, action rows and the ownership of inserted rows sound |
| `Undo.RunKeeps` | backend/ai_chat_store.py:1030-1057 | the same in every reachable state |
| `Undo.SameVersionUntouched` | backend/ai_chat_store.py:1942-1951 | a record that still carries an old version was not touched in between |
| `Undo.UndoRestores` | backend/ai_chat_store.py:1935-1970 | an undo goes through only if nothing wrote the record since the tool did, and puts back exactly the columns as they stood, unrecorded bookkeeping columns aside; other records are untouched |
| `Undo.UndoGoesThrough` | backend/ai_chat_store.py:1997-2024 | a field change can be undone if and only if it is the user's own, applied, unexpired and the record's last write |
| `Undo.InsertGoesThrough` | backend/ai_chat_store.py:1997-2024 | an insert can be undone if and only if it is the user's own, applied and unexpired; a creation never |
| `Undo.OneDayToUndo` | backend/ai_chat_store.py:1030-1057 | the action a tool leaves stays its user's and expires a day after it was made |
| `Undo.OneUndoable` | backend/ai_chat_store.py:1942-1951 | at any time at most one field change of a record can be undone |
| `Undo.UndoEndsTheChain` | backend/ai_chat_store.py:1965-1970 | an undo is a write: no earlier change of the record can be undone afterwards |
| `Undo.UndoneOnce` | backend/ai_chat_store.py:2007-2022 | no action is undone twice |
| `Undo.RowDeleteRemovesItsOwn` | backend/ai_chat_store.py:1973-1994 | undoing an insert removes exactly the rows that action inserted and are still there |
| `Undo.InsertThenUndo` | backend/ai_chat_store.py:1973-1994 | a tool's insert adds exactly the rows it lists, and an undo right after it takes the tables back to what they were |
| `Undo.ConflictIsNeverKept` | backend/ai_chat_store.py:1946-1951 | no action ever carries the status conflict |
| `UndoStore.Store.UpdateFields` | backend/ai_chat_store.py:1763-1801 | takes the tool-edit step, the fields written over the record's columns, or refuses and changes nothing |
| `UndoStore.Store.UndoFieldRestore` | backend/ai_chat_store.py:1935-1970 | refuses in the code's order, or writes the recorded columns back |
| `UndoStore.Store.UndoRowDelete` | backend/ai_chat_store.py:1973-1994 | the loop deletes exactly the listed rows, or raises when a table is not allowed |
| `UndoStore.Store.UndoAction` | backend/ai_chat_store.py:1997-2024 | takes the undo step: only the user's own, applied, unexpired action; each refusal for its reason, and it rolls everything back |
| `Admission.WindowWithinRecent` | backend/ai_chat_store.py:262-273 | the count the limit takes is no smaller than any window the new message falls into |
| `Admission.EveryWindow` | backend/ai_chat_store.py:262-273 | over every run, every one-minute window holds at most twenty messages of an agent, whatever order the timestamps come in |
| `Admission.NoThirdTurn` | backend/ai_chat_store.py:251-261 | admission never makes a third active turn, whatever the table holds |
| `Admission.ThirdTurnExactly` | backend/ai_chat_store.py:578-591 | a step takes an agent above two turns if and only if it revives a settled turn with two active |
| `Admission.AtMostTwo` | backend/ai_chat_store.py:251-261 | over every run an agent has at most two turns in progress in every state if and only if no step revives a settled turn of the agent with two active |
| `Admission.ThreeAtOnce` | backend/reconciliation.py:80-83 | a concrete run with three at once: timed out, two admitted, the first streams late |
| `Admission.RequestsAreDistinct` | backend/ai_chat_store.py:225-250 | an agent's request has at most one turn |
| `Admission.RepeatsGetTheSameTurn` | backend/ai_chat_store.py:225-250 | every later repeat is answered with that turn, under any load, and adds nothing |
| `Admission.ActiveCounts` | backend/ai_chat_store.py:251-261 | the first count is the number of the agent's turns in progress |
| `Admission.RecentCounts` | backend/ai_chat_store.py:262-273 | the second is the number of the agent's messages of the last minute |
| `Admission.Messages.CreateChatRequest` | backend/ai_chat_store.py:218-322 | takes the admission step, with the verdicts in the code's order: busy only with two turns in progress, too many only with twenty messages in the last minute |
| `TierRuns.LedgeredCall` | backend/ai_chat_agent.py:509-525 | a ledgered call's answer is a record change exactly when the call committed one, which an index in use never does |
| `TierRuns.AskedConcat` | backend/ai_chat_agent.py:940-946 | what the calls of two rounds change under one running index is what the first change, then the second |
| `TierRuns.ChatEnds` | backend/ai_chat_agent.py:946-1046 | the chat loop stops right: it answers only with a message without calls, takes all its rounds unless the model fails, retries once without tools, and sends back only the first claim of a staging nobody made |
| `TierRuns.RoundsEnd` | backend/ai_chat_agent.py:724-763 | the Foundry and Bedrock rounds stop right: after an answer, a failure, or two rounds of calls |
| `Ladder.Turn.ExecuteSafeTool` | backend/ai_chat_store.py:1844-1932 | a tool not offered does nothing; any other answers with its handler's receipt and changes the record if its handler does, but under a used index only repeats what its row holds |
| `Ladder.Turn.RunCalls` | backend/ai_chat_agent.py:984-1022 | every call gets the next index and every one that may run does: the receipts appended are, in order, the answers of exactly the calls that change a record under a free index, and each ledgered call leaves its completed row |
| `Ladder.Turn.LocalFallback` | backend/ai_chat_agent.py:867-1046 | whether it answers or raises, the caller's list holds exactly the changes its replies asked for, all committed, and it stops as it should |
| `Ladder.Turn.TwoRounds` | backend/ai_chat_agent.py:697-763 | the same for the Foundry and Bedrock rounds |
| `Ladder.Turn.LastWord` | backend/ai_chat_agent.py:1024-1046 | with the rounds spent it answers exactly when one more reply, asked for without tools, brings text and no call |
| `Ladder.Turn.Try` | backend/ai_chat_agent.py:1204-1243 | a tier ends the turn exactly when it answered or wrote, with the changes its replies asked for, all committed |
| `Ladder.Turn.Generate` | backend/ai_chat_agent.py:1126-1341 | for every script of replies: the tiers run in order, each doing what its replies asked for; it returns the changes of the first that answered or wrote, which are all the turn committed; it raises only after every configured tier was started, and then nothing was committed |
| `Wilson.ScoreTest` | backend/agent_twin.py:86-106 | a proportion lies within the unrounded bounds if and only if the observed share is within z of its own standard errors: what the interval means |
| `Wilson.Enclosed` | backend/agent_twin.py:86-106 | the bounds enclose the share, lie in [0, 1] before clamping and have positive width |
| `Wilson.Mirror` | backend/agent_twin.py:96-101 | the interval of the failures is the mirror image |
| `Wilson.MoreSuccesses` | backend/agent_twin.py:96-101 | more successes of as many strictly raise both bounds |
| `Wilson.AllOfThem` | backend/agent_twin.py:89-93 | n of n gives upper bound one and lower bound n over n plus z squared |
| `Wilson.MoreEvidence` | backend/agent_twin.py:86-106 | the same share seen more often gives an interval inside the old one |
| `Wilson.RoundedEnclosed` | backend/agent_twin.py:94-106 | after rounding the interval still encloses the rounded share within [0, 1]; without observations it is all of it |
| `Wilson.RoundedMonotone` | backend/agent_twin.py:102-106 | a smaller count never gets a larger rounded bound |
| `Wilson.HalfEvenNearest` | backend/agent_twin.py:102-106 | rounding goes to a nearest whole number, halfway to the even one |
| `Wilson.IntervalClose` | backend/agent_twin.py:102-106 | every published number is within half a thousandth of the exact one |
| `Wilson.ThreeOfThree` | backend/agent_twin.py:89-93 | three of three gives the interval from 0.439 to 1 |
| `AccessWindows.ReadLog.IsNew` | backend/audit_middleware.py:186-202 | a coalesced read has a recorded one of its key less than a minute before; the converse holds until a live key is dropped, which needs a full map recorded within the window |
| `AccessWindows.ReadLog.MakeRoom` | backend/audit_middleware.py:192-200 | there is room for a key afterwards; only stale keys and at most the oldest live one went |
| `AccessWindows.ReadLog.DropStale` | backend/audit_middleware.py:193-195 | exactly the keys older than the cutoff are popped |
| `AccessWindows.ReadLog.Oldest` | backend/audit_middleware.py:199 | finds a key of the smallest time |
| `AccessWindows.Noted` | backend/audit_middleware.py:192-201 | recording a read keeps: bounded map, every entry backed by a recorded read, every recent one remembered until an eviction |
| `DenialAlerts.TrimmedOk` | backend/audit_middleware.py:294-296 | trimming drops only denials older than the window |
| `DenialAlerts.WindowCounts` | backend/audit_middleware.py:294-299 | the window's length is the count of the key's denials in the last five minutes, never more, and exact until an eviction |
| `DenialAlerts.DenialWatch.Track` | backend/audit_middleware.py:279-312 | an alert names at least five denials within five minutes; until the map overflows it is raised if and only if there are that many and the key's last alert, or the clock's zero, is five minutes past |
| `DenialAlerts.DenialWatch.DropOldest` | backend/audit_middleware.py:290-293 | the first key inserted is forgotten and the rest stay sound |

## Left out

- Transactions are atomic steps over in-memory tables: row-level security, SKIP LOCKED contention, indexes and isolation below serial are not modelled.
- Hashing, canonical JSON, sealing and encryption: SHA-256 is an injective constructor, and a payload's hash is its canonical text.
- The purge at `backend/audit_ledger.py:674` runs before the flock at `backend/audit_ledger.py:682`; the model assumes that one process writes a SQLite file and that no purge runs while a drain is under way.
- The drain model keeps Postgres rows while fallback rows are unreleased: expiry is modelled only beside the verifier.
- Entries are recorded without a `_fallback` key in their metadata; a caller that supplied one would be taken for a drained row.
- Each page of a verification is one atomic read; a rollback of a run in progress, and the hash function's re-encoding of stored timestamps, are not modelled.
- Queue: status messages, error texts, attempt finalization (`finish_automation_job_attempt` is not part of this model), the age limit of the retention sweep (it may empty a finished job at any time), its deletion of old attempt rows, and job listing.
- Queue: `_loop` is over-approximated in the state machine (any snapshot may make any call at any time); `JobQueue.Queue.WorkOnce` is the undisturbed turn without the lease keeper.
- Accounts: invitations, the offboarding of a single agent and memberships; an account joins, is suspended, restored or signed out by its brokerage's closure, and a restored account may be any.
- Approval payload storage, reasons and listings; a role change's draft is read and requested in one step, and may be stale when it is applied.
- Agent names are folded for ASCII letters only.
- The Bedrock tier calls its tools without a call index (`backend/ai_chat_agent.py:1298-1301`), so those calls are outside the at-most-once theorem; the ladder's theorem covers them.
- Gated tools that open their own transactions are not atomic with the ledger claim and are outside the at-most-once theorem; read-only tools take no identity.
- Tool arguments, receipts and prompts are opaque; stated constraints appear as refusals before the claim.
- Undo values are opaque: their round trip through encrypted JSON text is not modelled.
- Valkey admission, concurrency slots, attachments' own checks and message text; the record and attachment checks are one parameter.
- Ladder.Turn.constructor: requires a ledger that holds no receipt of a record change for the turn; the job handler sees to it by ending a turn it finds streaming instead of running it again (`backend/ai_chat_agent.py:1367-1395`).
- The refusal to act without a selected record comes before the claim and is attached without one (`backend/ai_chat_store.py:1282-1283`, `backend/ai_chat_store.py:1928-1931`); it is not a step of the ledger model.
- Ladder: cancellation at the turn deadline, prompts, metering and the wording of replies; that a handler answers with an action id exactly when it changed a record is assumed.
- Wilson: floating-point rounding before the final `round`, which is taken as half-even on exact reals.
- Access windows: which of several equally old keys is dropped first, the alert's own writes.
- Valuation reconciliation (`backend/avm_client.py`), the autonomy dial, personas, logins and sessions: one-branch logic or plumbing that would only add easy members.
