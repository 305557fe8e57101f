# Trust-deeds workspace: verified model

The workspace keeps the books of a trust-deed investor: it receives email and
stores its attachments, imports loans and payments from The Mortgage Office
(TMO), refreshes a cash balance from Monarch, projects scheduled income and
expenses, and forecasts the balance. This project models five parts of it in
Dafny and proves what they promise.

1. **Inbound email** (`InboundTables`, `InboundProtocol`, `InboundInvariant`,
   `InboundStatements`, `InboundSafety`, `InboundTheorems`, `InboundWhole`,
   `InboundRepository`, `InboundContents`, `InboundOutcome`, `InboundWorkflow`,
   `InboundDeadline`, `ObjectStore`). Invocations race for two-minute leases on
   an email; each owner fetches the content, puts objects under keys that are
   never rebound (`If-None-Match: *`, section 13.1.2 of RFC 9110) and records
   them under guard of its lease. Owners interleave one external effect at a
   time, may stop anywhere, and a PUT may reach the bucket late, twice, or
   after its sender is gone. Two modelling assumptions: lease tokens are never
   drawn twice, and equal SHA-256 tags mean equal bytes.
2. **Sync runs** (`Operations`, `SyncLogSafety`, `SlotAttempts`,
   `SlotCoverage`, `RunEnds`, `OperationRepository`, `Scheduler`, `CronPass`,
   `MonarchSync`, `MonarchSafety`, `MonarchTheorems`, `MonarchService`). Claims
   under two unique indexes, slot coverage, a cap of three attempts, stale
   interruption, and a balance that commits together with the end of its run.
3. **Schedules and events** (`Calendar`, `DateText`, `Text`, `Recurrence`,
   `Slots`, `StreamEvents`, `RefreshSpec`, `EventLifecycle`, `EventEffects`,
   `SaveRefresh`, `ProjectionValues`, `CommandRules`, `FinanceRepository`).
   Recurrence generators, slot identities, the refresh that puts aside and
   upserts, and the life of an event.
4. **Forecast** (`Forecast`). The two-directional running balance against one
   prefix sum.
5. **Snapshots, pages and keys** (`TmoTables`, `TmoRecord`, `TmoSafety`,
   `TmoLoans`, `TmoSync`, `TmoEvents`, `TmoCaptures`, `TmoPages`, `MediaKey`,
   `MediaUrls`). Mark, upsert and sweep as set replacement, the page loop, and
   the percent codec.

Each repository is a class whose methods run the source's statements in order;
a method's contract equates its new state with a function of the old one, and
the theorems are about those functions and about runs of them. The unique keys,
checks and cascades are those of `migrations/0002_streams_forecast.sql`,
`0003_integrations_operations.sql`, `0004`, `0005` and `0006_sync_retry.sql`. A
table with rows that are never deleted is a sequence, the row with id 1 first;
the others are maps.

Findings, each proved below:

- A redelivery that lists an attachment its stored email lacks leaves that
  email stored with a pending attachment (`InboundWhole.WebhookKeepsWholeIff`,
  `InboundWhole.LateAttachmentStaysPending`).
- A claim that draws another lease's token would expire a stale lease without
  taking it (`InboundTheorems.ClaimKeepsPendingLeasedIff`,
  `InboundTheorems.SharedTokenLosesLease`).
- Saving a stream projects with the name as typed but stores it trimmed, so the
  next refresh may relabel rows (`EventLifecycle.SaveThenRefresh`,
  `SaveRefresh.PaddedNameIsRelabelled`).
- The comment on `patch_event` (`src/finance/repository.rs`, lines 1353-1355)
  has a cleared override return to the seed. A cleared label shows none, unless
  the seed has none either (`EventEffects.ClearedLabelShowsSeedIff`,
  `EventEffects.ClearedLabelIsLost`). The model follows the code.
- A claim whose deadline comes with its completion is reported as a transient
  failure although its email is stored; while the lease is held, that is the
  only such case (`InboundWorkflow.RunClaim`,
  `InboundDeadline.ClaimEmptyEmail`).
- The last month of year 9999 has no computable last day
  (`Calendar.LastOfMonthIsLastDay`), and a schedule that needs it fails
  (`RefreshSpec.PlanFailsIff`, `RefreshSpec.MonthlyFailsInLastMonth`).
- The comment on `most_recent_slot` (`src/scheduler.rs`, lines 100-102) calls
  the slot's index unique; since `0006_sync_retry.sql` it covers only running
  and successful rows, and a slot may have three rows
  (`SlotAttempts.SlotTakesThreeRuns`, `SlotAttempts.EntersIff`) and no more
  (`SyncLogSafety.ReachableLogs`). The model follows the code.

## Model

| member | source | states |
|---|---|---|
| `InboundTheorems.RecordedObjectsExist` | src/resend/http.rs:258-295 | Over every interleaving of deliveries, retries, owners, deaths and late PUTs: every recorded body key is bound in the bucket to an object of the recorded type, and every stored attachment's key to exactly as many bytes as its row says. |
| `InboundTheorems.RecordedKeysDiffer` | src/resend/http.rs:258-335 | In every reachable state no two recorded keys are equal: of two bodies, of two stored attachments, or of a body and an attachment. |
| `InboundInvariant.BodyKeysDiffer` | src/resend/http.rs:258-262 | Body keys are equal exactly for the same email and the same format. |
| `InboundInvariant.AttachmentKeysDiffer` | src/resend/http.rs:330-333 | Attachment keys are equal exactly for the same email and the same attachment id, whatever characters the latter has. |
| `InboundInvariant.BodyKeyIsNoAttachmentKey` | src/resend/http.rs:258-333 | A body key is never an attachment key. |
| `InboundTheorems.NothingStoredIsUndone` | src/resend/repository.rs:136-216 | Between any two moments of any run: object bindings, stored email and attachment rows, and written body columns are the same, and the number of stored attachments has not dropped. |
| `InboundSafety.StepKeeps` | src/resend/repository.rs:51-407 | One action of anyone keeps the invariant: unique rows and tokens, foreign keys, pending exactly when leased, recorded objects bound, and nothing recorded that was not seen in the bucket. |
| `InboundSafety.RunKeeps` | src/resend/repository.rs:51-407 | Any run from a good state stays good and keeps rows, stored rows, body columns and bindings. |
| `InboundTheorems.WithoutLeaseAllConflict` | src/resend/repository.rs:128-349 | With valid arguments and a token that does not hold the lease, recording a body, marking an attachment stored or failed, completing and failing all report a conflict. |
| `InboundTheorems.OnlyTheHolderMoves` | src/resend/repository.rs:136-349 | A move of an owner changes a table only while its token holds the lease of its email; no move takes or refreshes a lease. |
| `InboundTheorems.OneHolderPerEmail` | src/resend/repository.rs:351-407 | In every reachable state at most one of an email's owners has any move that changes a table. |
| `InboundTheorems.LostLeaseStaysLost` | src/resend/repository.rs:351-407 | A drawn token that does not hold a lease never holds it again, in any continuation. |
| `InboundTheorems.StaleOwnerChangesNothing` | src/resend/repository.rs:128-349 | Fencing over runs: once an owner's lease is gone or replaced, no move of it at any later time changes a table. |
| `InboundTheorems.RetryAcquiresExactlyWhenClaimable` | src/resend/repository.rs:103-126 | A retry with a new token takes the lease if and only if the email exists, is not stored, and no lease on it is younger than two minutes; otherwise it changes no table. |
| `InboundTheorems.WebhookAcquiresExactlyWhenClaimable` | src/resend/repository.rs:51-101 | The same for a delivery that the tables take, a new email being always claimable: it writes the lease and starts exactly one owner, or leaves leases and owners as they are. |
| `InboundTheorems.RefusedWebhookChangesNothing` | src/resend/repository.rs:51-101 | A delivery that is refused changes no table and starts no owner. |
| `InboundTheorems.DeliveryAnswers` | src/resend/repository.rs:51-101 | In every good state an accepted delivery answers, told from the email's row and lease alone: already stored exactly if it was stored before, busy exactly if it was not and its lease is younger than two minutes, and acquired otherwise, each naming that email; one that no email has is acquired under the next id. |
| `InboundTheorems.RetryAnswers` | src/resend/repository.rs:103-126 | The same for a retry, with its two errors for emails that are not there. |
| `InboundTheorems.YoungLeaseHolds` | src/resend/repository.rs:351-371 | As long as claims are made within two minutes of its taking, a lease ends only by its own owner completing or failing, over any actions of others. |
| `InboundTheorems.PendingIsLeased` | src/resend/repository.rs:247-407 | In every reachable state: pending if and only if leased; stored means no lease and no error; failed if and only if an error is on record. |
| `InboundTheorems.ClaimKeepsPendingLeasedIff` | src/resend/repository.rs:358-373 | Exactly when one claim breaks "pending means leased": a stale lease is expired and the new token is the one of another email's lease. With tokens never drawn twice this cannot happen. |
| `InboundTheorems.SharedTokenLosesLease` | src/resend/repository.rs:358-373 | Such a state: the claim is refused and leaves its email pending without a lease. |
| `InboundWhole.WebhookKeepsWholeIff` | src/resend/repository.rs:92-101 | A delivery keeps "stored emails have only stored attachments" if and only if it lists no attachment that its already stored email lacks. |
| `InboundWhole.StepKeepsWholeIff` | src/resend/repository.rs:51-349 | One action of anyone keeps it if and only if it is no accepted delivery of that kind; no owner's move ever breaks it. |
| `InboundWhole.WholeThroughoutIff` | src/resend/repository.rs:51-349 | It holds in every state of a run if and only if each delivery let in lists nothing that its email, already stored by then, lacks. |
| `InboundWhole.StoredEmailsAreWhole` | src/resend/repository.rs:92-101 | In particular it holds in every state when redeliveries list only attachments of their email's first accepted delivery, or fewer of them. |
| `InboundWhole.LateAttachmentStaysPending` | src/resend/repository.rs:92-101 | A concrete run shows the condition is needed: a redelivery with one more attachment leaves a stored email with a pending attachment. |
| `InboundStatements.ClaimOnDecides` | src/resend/repository.rs:351-407 | What a claim on one email decides and writes, for a token in no lease. |
| `InboundStatements.AddAttachmentsLists` | src/resend/repository.rs:409-438 | Afterwards every listed attachment has a row; nothing is inserted if all had one. |
| `InboundContents.DeliveryIsTakenIff` | src/resend/repository.rs:51-101 | A sound delivery is taken exactly if the email it repeats has its header and every attachment it lists is as announced before, in the tables or in the delivery itself; otherwise it is a conflict. |
| `InboundContents.DeliveryIsOnRecord` | src/resend/repository.rs:51-101 | A delivery taken is on record: a new email with just what was delivered, an old one with its header, a row for every attachment listed, and no other new row. |
| `InboundContents.ClaimShows` | src/resend/repository.rs:351-407 | A claim makes its email pending without an error and its attachments pending unless stored, and changes nothing else of any row. |
| `InboundContents.AttachmentsOfIsExact` | src/resend/repository.rs:538-556 | The attachments of a claim are exactly the rows of its email, with their ids. |
| `InboundContents.PendingOfIsExact` | src/resend/http.rs:275-279 | An owner sets out to store exactly the rows that are not stored. |
| `InboundContents.RecordingShows` | src/resend/repository.rs:128-164 | Recording a body writes key and type into that row exactly while the lease is held and the email pending. |
| `InboundContents.MarkingShows` | src/resend/repository.rs:166-216 | Marking writes key and size into a row not stored, accepts a stored one only with the very same, and only while the lease is held. |
| `InboundContents.AttachmentErrorShows` | src/resend/repository.rs:218-245 | A failed attachment is marked exactly while it is pending and the lease is held, in its state alone. |
| `InboundContents.CompletingShows` | src/resend/repository.rs:247-304 | An email is completed exactly while leased and pending with every attachment stored; then it is stored without an error and its lease is gone. |
| `InboundContents.FailingShows` | src/resend/repository.rs:306-349 | A failure is recorded with its message exactly while the email is leased and pending; then its lease is gone. |
| `InboundContents.ObjectTexts` | src/resend/http.rs:245-333 | Where bodies and attachments are kept, and the two body types. |
| `InboundContents.DeliveryLimits` | src/resend/repository.rs:637-735 | The limits of tokens, provider ids and every part of a delivery. |
| `InboundRepository.InboundEmailRepository.ClaimWebhook` | src/resend/repository.rs:51-101 | Insert-or-ignore, replay check, attachments, claim, statement by statement, is one step of the protocol; a refusal rolls everything back. |
| `InboundRepository.InboundEmailRepository.UpsertAttachments` | src/resend/repository.rs:92-94 | The loop inserts exactly the new attachments and refuses changed metadata. |
| `InboundRepository.InboundEmailRepository.ClaimRetry` | src/resend/repository.rs:103-126 | A retry is one claim step, with its two errors. |
| `InboundRepository.InboundEmailRepository.ClaimRow` | src/resend/repository.rs:351-407 | Expire, insert-or-ignore and reset are the claim step, also when the claim is refused. |
| `InboundRepository.InboundEmailRepository.RecordBody` | src/resend/repository.rs:128-164 | The guarded update is the step: only the holder, only while pending. |
| `InboundRepository.InboundEmailRepository.MarkAttachmentStored` | src/resend/repository.rs:166-216 | The guarded update and the check after a miss are the step; a replay with equal metadata is accepted. |
| `InboundRepository.InboundEmailRepository.MarkAttachmentError` | src/resend/repository.rs:218-245 | Only a pending attachment of the holder is marked. |
| `InboundRepository.InboundEmailRepository.Complete` | src/resend/repository.rs:247-304 | Stored, and the lease gone, only with the lease held and every attachment stored. |
| `InboundRepository.InboundEmailRepository.Fail` | src/resend/repository.rs:306-349 | Failed with the message, and the lease gone, only with the lease held. |
| `ObjectStore.Bucket.PutIfAbsent` | src/media/service.rs:565-614 | Whatever the network does, a key is bound at most once and never rebound; success exactly if both requests are answered, a conflict (409) included, and the object there matches in size, type and bytes; a mismatch and a missing object are told apart. |
| `ObjectStore.Bucket.PutCanonicalIfAbsent` | src/media/service.rs:172-198 | Nothing is written under a key that is not canonical or for an object out of bounds; otherwise success exactly as above. |
| `ObjectStore.MatchesIff` | src/media/service.rs:594-612 | An object matches exactly if its bytes are those wanted and its media type, whatever its parameters, is the one wanted. |
| `ObjectStore.StorableIff` | src/media/service.rs:172-186 | Objects are at most 25 MiB and of a printable type of at most 255 bytes. |
| `InboundWorkflow.StoreAttachment` | src/resend/http.rs:309-356 | One attachment of the owner's program is a sequence of its protocol moves. Its row becomes stored, and no other row or key changes, exactly if the lease is held, the listing has it as announced, it is downloaded with an accepted type, and its PUT goes through before the deadline; a failure is permanent exactly if it is not announced, its download is refused or of another type, or its object is faulty. |
| `InboundWorkflow.ById` | src/resend/http.rs:283-288 | The map of the provider's listing has exactly its entries, and there is none if and only if an id repeats. |
| `InboundWorkflow.StorePending` | src/resend/http.rs:289-299 | The loop succeeds exactly if every pending attachment goes through, and then just those rows have become stored; otherwise it marks the one that fails unless the deadline came first. |
| `InboundWorkflow.ProcessClaim` | src/resend/http.rs:236-307 | The owner's program, a run of its protocol moves wherever the deadline cuts it, ends with the email stored, whole and released exactly if the claim completes, and with the leases as they were otherwise; it succeeds exactly if the deadline does not come with the completion. |
| `InboundWorkflow.RunClaim` | src/resend/http.rs:205-234 | A claim completes exactly if its lease is held, no attachment was announced since, and provider, network and deadline let it through: its email is then stored, whole and without an error, which is reported as success unless the deadline comes with the completion, and then as a transient failure. Every other claim is reported as failed, for good exactly if an answer of the provider or an object in the way is at fault before any deadline or lost lease, and is on record so if the lease was held. The invariant and everything recorded are kept, the lease is gone, and a completed email has its html, or else its text, under the key and type for it, and every attachment the bytes downloaded for it. |
| `InboundWorkflow.PublicErrorTexts` | src/resend/http.rs:220-224 | The message on record offers a retry exactly for transient failures. |
| `InboundOutcome.DownloadTypes` | src/resend/http.rs:332-336 | A download may have the announced type or the general one, and fails for good with any other. |
| `InboundOutcome.ProviderFailures` | src/resend/http.rs:236-307 | With time enough, a refusal of the provider or a repeated id fails a claim for good, and an answer that may come later does not. |
| `InboundWorkflow.MediaFailures` | src/resend/http.rs:373-388 | Which failures of storage are for good and which may be tried again. |
| `InboundOutcome.NewClaimCompletesIff` | src/resend/http.rs:205-307 | For a claim just made by a delivery or a retry, from any good state, completing depends on provider, network and deadline alone. |
| `InboundOutcome.MarkSucceeds` | src/resend/repository.rs:166-216 | With the object seen in the bucket, marking succeeds exactly if the lease is held, a row already stored included. |
| `InboundDeadline.EmptyClaimCompletes` | src/resend/http.rs:205-234 | A reachable claim, of an email without body and attachments, that completes, with and without a deadline at the completion. |
| `InboundDeadline.ClaimEmptyEmail` | src/resend/http.rs:205-234 | Run from the delivery on, that claim stores the email without an error both times, and with the deadline at the completion reports a transient failure. |
| `SyncLogSafety.ReachableLogs` | src/operations/repository.rs:147-416 | In every reachable log: one running row a connection, one running or successful row a slot, at most three rows a slot in all, and read-only means the scheduler is off. |
| `SyncLogSafety.RunKeeps` | src/operations/repository.rs:39-416 | Any statements in any order keep that, and no row that has ended ever changes. |
| `SyncLogSafety.ScheduledClaimIsExplained` | src/operations/repository.rs:209-299 | With the scheduler on, a scheduled claim inserts exactly one row when nothing stands against it, and otherwise names a row that runs, covers the slot, or is in it. |
| `SyncLogSafety.ManualClaimIsExplained` | src/operations/repository.rs:147-203 | A manual claim is inserted if and only if no run of the connection is going, and otherwise names that run. |
| `SyncLogSafety.NoCoordinationErrors` | src/operations/repository.rs:93-127 | The coordination errors of both claims and of the scheduler switch are unreachable from any state. |
| `SyncLogSafety.ErrorRowMeansExhausted` | src/operations/repository.rs:270-298 | In every reachable log, a slot refused with an error row has exactly three rows, all errors. |
| `SlotAttempts.EntersIff` | src/operations/repository.rs:209-299 | A statement adds a row to a slot, one at a time, exactly if it is a scheduled claim of that slot, the scheduler is on, the slot's earlier rows are fewer than three and all errors, and no run of the connection is going or covers the slot. |
| `SlotAttempts.SlotTakesThreeRuns` | src/operations/repository.rs:209-299 | A run from a new database, at any time, that ends with three rows in one slot, the last of them running. |
| `SlotCoverage.ClaimStartsRunIff` | src/operations/repository.rs:209-299 | In terms of times: with no run going and the slot's runs fewer than three and all failed, a claim starts a run exactly if every success of the connection started before the slot; otherwise it names one that started at the slot or later. |
| `SlotCoverage.NoStartsWhenOff` | src/operations/repository.rs:147-299 | No statement starts a run while read-only, nor a scheduled one with the scheduler off. |
| `SlotCoverage.NewDatabaseIs` | migrations/0003_integrations_operations.sql:364-378 | A new database has run nothing, is read-only, and does not schedule. |
| `RunEnds.InterruptingShows` | src/operations/repository.rs:306-345 | Exactly the connection's running rows that started before the cutoff fail, with the time and the reason, unless read-only. |
| `RunEnds.SucceedingShows` | src/operations/repository.rs:347-385 | A success is recorded exactly on a running row, with its time and counts. |
| `RunEnds.FailingShows` | src/operations/repository.rs:387-416 | A failure is recorded exactly on a running row, with its time and message. |
| `RunEnds.ControlShows` | src/operations/repository.rs:39-127 | Both switches write just what was asked, and refuse exactly scheduling while read-only. |
| `RunEnds.RefusalsShow` | src/operations/repository.rs:147-299 | The reasons of refused claims: read-only, then the scheduler, then the connection. |
| `SyncLogSafety.LastStartedIsLast` | src/operations/repository.rs:520-577 | The run the queries pick is the one that started last, the newest of equals. |
| `OperationStore.OperationRepository.SetControl` | src/operations/repository.rs:39-73 | The control row is replaced, or nothing is if the scheduler would run read-only. |
| `OperationStore.OperationRepository.EnterReadOnly` | src/operations/repository.rs:78-81 | Entering maintenance always turns the scheduler off. |
| `OperationStore.OperationRepository.EnableWrites` | src/operations/repository.rs:85-88 | Enabling writes leaves the scheduler off. |
| `OperationStore.OperationRepository.SetSchedulerEnabled` | src/operations/repository.rs:93-127 | The conditional update: never on while read-only, and only then refused. |
| `OperationStore.OperationRepository.ClaimManual` | src/operations/repository.rs:147-203 | The insert under the unique index, and the explanation of a refusal. |
| `OperationStore.OperationRepository.ClaimScheduled` | src/operations/repository.rs:209-299 | The insert under both indexes, coverage and the cap, and the explanation in the source's order. |
| `OperationStore.OperationRepository.InterruptStale` | src/operations/repository.rs:306-345 | Exactly the connection's running rows started before the cutoff end, and their ids are returned in order. |
| `OperationStore.OperationRepository.CompleteSuccess` | src/operations/repository.rs:347-385 | Only a running row completes; otherwise nothing changes. |
| `OperationStore.OperationRepository.CompleteError` | src/operations/repository.rs:387-416 | Only a running row fails; otherwise nothing changes. |
| `Scheduler.SlotIsTheLastBefore` | src/scheduler.rs:103-117 | A time is the slot if and only if it is on the grid, at or before now, and less than one period back, for times of either sign. |
| `Scheduler.SlotsAreIdempotentAndMonotone` | src/scheduler.rs:103-117 | The slot of a slot is itself; later times have later slots; slots are whole periods apart. |
| `Scheduler.SlotsExist` | src/scheduler.rs:103-130 | There is a slot unless it leaves representable time, and the next slot is one period after it and after now. |
| `Scheduler.SlotsAreAt` | src/scheduler.rs:80-117 | The slots of each cadence: every full hour, 0, 6, 12 and 18, 0 and 12, or 6 o'clock UTC. |
| `Scheduler.SlotTextIs` | src/scheduler.rs:80-130 | A slot's text is its date and one of those hours. |
| `Scheduler.AttemptsAreBounded` | src/operations/repository.rs:209-299 | From any good log with any history: however cron is delivered between two times under a cadence, and whatever else happens to the log, at most three scheduled claims are added per slot of that time. |
| `CronPass.DueTextsBracketNow` | src/scheduler.rs:299-360 | As stored text the slot is at or before the delivery and the next slot after it. |
| `CronPass.RedeliveryPreparesTheSame` | src/scheduler.rs:299-360 | A redelivery before the next slot prepares the same slot and leaves the row, its time included, unchanged. |
| `CronPass.PreparingShows` | src/scheduler.rs:299-360 | What preparing makes of a row and reports, by cadence: the slot due, the slot one period later, and a time that moves only with the next slot. |
| `CronPass.StatusesAre` | src/scheduler.rs:187-290 | The status each outcome counts with, and which asks for a retry. |
| `CronPass.StopsAre` | src/scheduler.rs:197-233 | The code with which a turn ends the pass. |
| `CronPass.CronService.PrepareSchedule` | src/scheduler.rs:299-360 | The next slot is recorded, or cleared, before the outcome is reported; with the scheduler off nothing is. |
| `CronPass.DueIsDelivered` | src/scheduler.rs:299-360 | What preparing a schedule finds due is the slot of the time of delivery under the row's cadence. |
| `CronPass.CronAttemptsAreBounded` | src/scheduler.rs:187-360 | However often cron is delivered between two times, the slots it finds due lead to at most three added claims per slot of that time, from any good log and between any other statements. |
| `CronPass.CronService.RunTurn` | src/scheduler.rs:187-287 | One integration's turn: when exactly it stops the pass and with which code, what it reports, and the control and rows it leaves. |
| `CronPass.CronService.RunCronAt` | src/scheduler.rs:179-297 | The pass ends early exactly at the first integration where the scheduler is off by then or no slot can be computed, with that code and with the rows prepared until then; otherwise one entry per integration in order, none skipped by another's failure, the status the worst, a retry asked for if and only if some sync asks, and every due row prepared. |
| `MonarchTheorems.EverySuccessAppliedOnce` | src/integrations/actions.rs:567-606 | Over every interleaving, including lost commit answers: committed balances and success rows correspond one to one. |
| `MonarchTheorems.CashMovesWithSuccess` | src/integrations/actions.rs:567-743 | One action of anyone but a user: a run turns into a success exactly when a balance is committed; then account, cash setting and source are all that run's capture and bear the time its run ended, and in every other case the cash anchor is as it was. |
| `MonarchTheorems.CashIsTheLastSuccess` | src/integrations/actions.rs:567-743 | After every run in which no user edits it, the cash anchor is wholly the last committed capture, whose run is a success, or untouched if there is none. |
| `MonarchTheorems.StaleOwnerPublishesNothing` | src/integrations/actions.rs:567-646 | Once its run has ended, interrupted or otherwise, no move of an owner at any later time changes the log, the balance or the connection. |
| `MonarchTheorems.PunctualRunsSurvive` | src/integrations/actions.rs:451-509 | If each owner stops within twenty minutes on a common clock, no run still held is ever interrupted. |
| `MonarchTheorems.PublishingShows` | src/integrations/actions.rs:567-743 | A capture is published exactly while its run is going and its descriptions are at most 16 KiB: account, cash, source and connection show it with the owner's date and the time, and the run succeeded; otherwise nothing changes. |
| `MonarchTheorems.FailureShows` | src/integrations/actions.rs:608-646 | A failure is recorded exactly while the run is going: the connection is inactive with the message, the run failed with it, and the cash is untouched. |
| `MonarchTheorems.OldRunsEnd` | src/integrations/actions.rs:451-470 | An owner ends every Monarch run that started more than twenty minutes before it, and no other. |
| `MonarchSafety.NextKeeps` | src/integrations/actions.rs:451-646 | One action of anyone keeps the log good, applications and successes in step, and runs with their owners. |
| `MonarchService.MonarchBalanceService.FinishSuccess` | src/integrations/actions.rs:567-606 | Balance and completion, statement by statement, are one atomic change or none. |
| `MonarchService.MonarchBalanceService.FinishFailure` | src/integrations/actions.rs:608-646 | The connection's error and the run's end are one atomic change or none. |
| `MonarchService.MonarchBalanceService.Run` | src/integrations/actions.rs:451-509 | A whole sync: interrupt, claim, capture, publish or record the failure. |
| `MonarchService.ServiceIsAnOwner` | src/integrations/actions.rs:451-509 | The service run alone, taking any time between claim and answer, does exactly what the moves of an owner and the clock do. |
| `RefreshSpec.RefreshIsExact` | src/finance/repository.rs:885-1001 | After a refresh the live, untouched projections in the window are exactly the planned occurrences whose slots are not excluded by the user, received or overridden, each with its seed values. |
| `RefreshSpec.RefreshRows` | src/finance/repository.rs:885-1001 | The whole refresh row by row, from one specification of a row. |
| `RefreshSpec.RefreshRespectsRows` | src/finance/repository.rs:885-1001 | No row disappears; rows of other streams and sources, received rows, override columns and user exclusions are untouched. |
| `RefreshSpec.RefreshIsIdempotent` | src/finance/repository.rs:885-1001 | A second refresh changes nothing and counts the same occurrences. |
| `RefreshSpec.PlanIsExact` | src/finance/repository.rs:910-951 | The planned seeds are exactly the occurrences of the stream's active schedules in the window, each in a slot of its own. |
| `ProjectionValues.RefreshShowsSchedules` | src/finance/repository.rs:885-1001 | After a refresh every row shown in the window is an occurrence of an active schedule with that schedule's amount, account and label, or the stream's name if it has none; and every occurrence not received, changed or removed by a user is shown so. |
| `ProjectionValues.AddedRowsAreNew` | src/finance/repository.rs:954-984 | Rows that a refresh adds are projected and untouched, and the stream's. |
| `ProjectionValues.RefreshHidesOnlyShown` | src/finance/repository.rs:885-953 | A refresh hides no row but one shown as its schedule made it, and changes nothing else of it; all that a user changed and all outside the window stay as visible as they were. |
| `ProjectionValues.SaveShowsDrafts` | src/finance/repository.rs:437-570 | After a save every row shown is an occurrence of one of the draft's own schedules with the draft's amount, account and label, none of a schedule it dropped; and every occurrence of the draft not taken is shown so. |
| `RefreshSpec.PlanFailsIff` | src/finance/repository.rs:1027-1105 | A plan fails exactly if the window reaches some active schedule of the stream that is monthly without a due day or whose dates run out of the calendar. |
| `RefreshSpec.MonthlyFailsInLastMonth` | src/finance/repository.rs:1038-1050 | For a monthly schedule with a due day that is exactly a range reaching into December 9999. |
| `RefreshSpec.DueDayEditReusesRow` | src/finance/repository.rs:954-984 | A refresh reuses each month's row, whatever due day it was made for, and never adds a second one. |
| `SaveRefresh.DueDayEditKeepsOneRowAMonth` | src/finance/repository.rs:437-590 | Saving a monthly schedule anew, with another due day or anything else, and refreshing in any windows keeps a month's row the only one of its month, and shows the new due day in it wherever the windows reach. |
| `EventLifecycle.ReceivedIsFinal` | src/finance/repository.rs:1356-1509 | No sequence of commands changes, deletes or excludes a received event. |
| `EventLifecycle.UserExclusionLasts` | src/finance/repository.rs:1418-1482 | A user exclusion outlives every sequence of commands that does not restore that event. |
| `EventLifecycle.RunsFromEmptyAreSound` | src/finance/repository.rs:593-642 | From empty tables every run keeps (stream, source type, source id) unique and every row in order. |
| `EventLifecycle.StepIsGood` | src/finance/repository.rs:437-642 | Every command, accepted or refused, keeps the tables sound and every row its due. |
| `CommandRules.ProviderEventIsFinal` | src/finance/repository.rs:1353-1509 | No sequence of commands changes or removes a provider's event. |
| `CommandRules.SaveIsTakenIff` | src/finance/repository.rs:437-570 | A save is taken exactly if the draft is sound, all accounts, streams and schedules it names are there and none twice, and its own schedules can be computed in the window; and which error comes first. |
| `CommandRules.CreateIsTakenIff` | src/finance/repository.rs:1300-1330 | When a manual event is taken, and which error comes otherwise. |
| `CommandRules.PatchIsTakenIff` | src/finance/repository.rs:1356-1416 | When a patch is taken, and which error comes otherwise. |
| `CommandRules.RemoveIsTakenIff` | src/finance/repository.rs:1418-1458 | When a removal is taken; a manual event is gone and a projection stays. |
| `CommandRules.RestoreIsTakenIff` | src/finance/repository.rs:1460-1482 | When a restoration is taken, and that it shows the projection. |
| `CommandRules.ReconcileIsTakenIff` | src/finance/repository.rs:1484-1509 | When a reconciliation is taken, and which error comes otherwise. |
| `EventLifecycle.RemoveThenRestore` | src/finance/repository.rs:1418-1482 | Removing and restoring a projection only shows it; it is the identity exactly if no exclusion was there. |
| `EventLifecycle.SaveThenRefresh` | src/finance/repository.rs:437-590 | A refresh after a save adds no row, and changes nothing exactly if the name needed no trimming or no open projection carries it. |
| `SaveRefresh.PaddedNameIsRelabelled` | src/finance/repository.rs:437-590 | A concrete save with a padded name whose row the next refresh relabels. |
| `EventEffects.DeletedStreamIsHidden` | src/finance/repository.rs:593-642 | After a deletion no row of the stream is live in any window, and a refresh, a save, a new event and a second deletion of it are refused; only open projections that were shown change, and only in their exclusion. |
| `EventEffects.DeletedStreamStaysHidden` | src/finance/repository.rs:593-642 | Over every later sequence of commands the stream stays gone and takes no new projection, and an open projection is shown again only if a user restores it. |
| `EventEffects.CreatedEventIsNew` | src/finance/repository.rs:1300-1350 | A manual event takes an id and a source id that no row has, shows what was entered, and leaves every other row alone. |
| `EventEffects.CreateThenRemove` | src/finance/repository.rs:1300-1458 | Creating and removing a manual event leaves the table as it was, with the id used up. |
| `EventEffects.PatchShowsItsValues` | src/finance/repository.rs:1356-1416 | A patch changes what is shown of exactly the columns it names, in that row only: a value set is shown, and a date, amount or account cleared shows the seed's again. |
| `EventEffects.ClearUndoesPatch` | src/finance/repository.rs:1356-1416 | Clearing what a patch touched restores the books exactly if nothing it touched was overridden before. |
| `EventEffects.ClearedLabelShowsSeedIff` | src/finance/repository.rs:1353-1383 | A cleared label shows the seed's label exactly if the seed has none. |
| `EventEffects.ClearedLabelIsLost` | src/finance/repository.rs:1353-1383 | A concrete event, entered with a label and patched to clear it, that shows none. |
| `EventEffects.ReconciledShowsActuals` | src/finance/repository.rs:1484-1509 | A reconciled event shows its actual date and amount, keeps everything expected and overridden, and no later sequence of commands changes it. |
| `EventEffects.ReceivedRefusesCommands` | src/finance/repository.rs:1356-1509 | Every further patch, removal, restoration or reconciliation of a received event is refused. |
| `FinanceStore.FinanceRepository.UpsertEvent` | src/finance/repository.rs:954-984 | One upsert on the conflict target: update the open row of the slot, leave a closed one, or insert. |
| `FinanceStore.FinanceRepository.UpsertOccurrences` | src/finance/repository.rs:954-984 | The occurrences of one schedule, in order, as the specified upserts. |
| `FinanceStore.FinanceRepository.RefreshStreamScheduleEventsOn` | src/finance/repository.rs:885-1001 | Putting aside and upserting, statement by statement, is the specified refresh. |
| `FinanceStore.FinanceRepository.RefreshStreamScheduleEvents` | src/finance/repository.rs:572-591 | The refresh of an active stream under its stored name, with its errors. |
| `FinanceStore.FinanceRepository.SaveScheduleDrafts` | src/finance/repository.rs:772-828 | The loop over the drafts, stopping at the first refusal. |
| `FinanceStore.FinanceRepository.SaveStreamDraft` | src/finance/repository.rs:437-570 | Save, deactivate what is gone, refresh; any error rolls back. |
| `FinanceStore.FinanceRepository.DiscardEvent` | src/finance/repository.rs:1418-1458 | A manual event is deleted, a projection durably excluded. |
| `FinanceStore.FinanceRepository.RestoreScheduledEvent` | src/finance/repository.rs:1460-1482 | Only an excluded open projection is restored. |
| `Slots.SourceIdIsInjective` | src/finance/repository.rs:954-958 | Two schedules never share a source id; within one, only equal slots do. |
| `Slots.SlotsAreDistinct` | src/finance/repository.rs:1003-1025 | Distinct occurrences of one schedule have distinct slots, for all six frequencies. |
| `Slots.MonthlySlotIsTheMonth` | src/finance/repository.rs:1003-1025 | A monthly slot is the month, whatever the due day or start date. |
| `Slots.SourceIdTexts` | src/finance/repository.rs:954-1025 | The source ids on record, by frequency. |
| `Text.TrimIs` | src/finance/repository.rs:358-363 | Trimming takes just the white space at both ends. |
| `Recurrence.OccurrencesAreExact` | src/finance/repository.rs:1027-1105 | A list is the specified one if and only if it is strictly increasing and holds exactly the dates of the window, on or after the anchor, that meet the rule. |
| `Recurrence.OccurrencesConcatenate` | src/finance/repository.rs:1027-1105 | Splitting a window at any day: it fails exactly if one of the halves does, with that error, and otherwise its dates are those of the halves, one list after the other; for all six frequencies and empty halves too. |
| `Recurrence.DatesAre` | src/finance/repository.rs:1027-1105 | The dates of a window, by frequency, told from the calendar alone. |
| `Recurrence.MonthlyOccurrences` | src/finance/repository.rs:1038-1050 | The loop over months with clamped due days returns exactly the specified occurrences, or the error of the last month. |
| `Recurrence.SemimonthlyOccurrences` | src/finance/repository.rs:1051-1063 | The two dates a month, in order and within the window. |
| `Recurrence.StepOccurrences` | src/finance/repository.rs:1086-1105 | Ceil-aligned steps from the anchor: none missed, none before the window. |
| `Recurrence.AnnualOccurrences` | src/finance/repository.rs:1066-1075 | Anniversaries, clamped in years without the day. |
| `Recurrence.ScheduleOccurrences` | src/finance/repository.rs:1027-1084 | All six frequencies return the specification's list or error. |
| `Forecast.ComputeForecast` | src/finance/repository.rs:1656-1754 | The forecast from the events between window and anchor is the window's part of one prefix-sum balance of the whole book, for every window and anchor. |
| `Forecast.ComputeScopedForecast` | src/finance/repository.rs:1656-1845 | The same for the streams and the view asked for: the forecast is that of their events alone, and a row is late exactly if nothing happened before today though something was expected. |
| `Forecast.ScopedIsOrdered` | src/finance/repository.rs:1790-1810 | The events of the streams asked for keep their order. |
| `Forecast.RunningBalances` | src/finance/repository.rs:1692-1708 | The two in-place loops, forward after the anchor and backward up to it, fill every entry with that balance. |
| `Forecast.WindowRows` | src/finance/repository.rs:1719-1745 | The rows are exactly the events of the window, in order. |
| `Forecast.BalanceAtIsBalance` | src/finance/repository.rs:1862-1886 | The ending formula is the prefix-sum balance on either side of the anchor. |
| `Forecast.BalanceBeforeIsBalance` | src/finance/repository.rs:1888-1912 | The opening formula is the prefix-sum balance before the window. |
| `Forecast.EnvelopeForecast` | src/finance/repository.rs:1678-1691 | Events outside the range between window and anchor change nothing. |
| `Forecast.RowsAddUp` | src/finance/repository.rs:1678-1745 | Consecutive balances differ by the later event's signed amount, across the anchor too; opening plus the amounts is the ending. |
| `Forecast.BalanceFollowsEvents` | src/finance/models.rs:56-61 | The balance rises by exactly the magnitude on an incoming event and falls by exactly that on an outgoing one, whatever the sign stored, the first row from the opening balance on; at the anchor it is the cash. |
| `Forecast.CashComesAndGoes` | src/finance/repository.rs:1684-1708 | A cash of 1000 with 100 in and 30 out. |
| `Forecast.RowsAreInOrder` | src/finance/repository.rs:1795-1812 | Rows come by date, and by id on one date. |
| `Forecast.ScopedRowsAre` | src/finance/repository.rs:1795-1812 | The rows of a query are exactly the events of the window that are of the stream and the view asked for. |
| `Forecast.RowsAreTheWindow` | src/finance/repository.rs:1719-1745 | The rows are exactly the events dated in the window, in order. |
| `Forecast.SameBalanceInEveryWindow` | src/finance/repository.rs:1678-1745 | An event has the same balance in every window that shows it. |
| `Forecast.ReanchoringChangesNothing` | src/finance/repository.rs:1862-1912 | Anchoring at any other date, at the balance forecast for it, changes no output. |
| `Forecast.WindowsJoin` | src/finance/repository.rs:1678-1745 | Adjacent windows join: rows concatenate and the first ending is the second opening. |
| `Calendar.OrderIsDayOrder` | src/finance/date.rs:38-47 | Calendar order is day-number order, and a day number is one date. |
| `Calendar.DayCountsDays` | src/finance/date.rs:38-43 | The next calendar day is one day number later. |
| `Calendar.OfDayInvertsDay` | src/finance/date.rs:38-47 | Every date comes back from its day number. |
| `Calendar.LastOfMonthIsLastDay` | src/finance/date.rs:56-68 | The last day of a month is the month's length, computable except in December 9999. |
| `Calendar.NextMonthStarts` | src/finance/date.rs:78-85 | The next month starts one month length later, except after December 9999. |
| `Calendar.MonthLengths` | src/finance/date.rs:56-68 | The lengths of months, leap years included. |
| `DateText.PrintThenParse` | src/finance/date.rs:93-127 | Parsing undoes printing. |
| `DateText.ParseThenPrint` | src/finance/date.rs:93-127 | Printing undoes parsing: only the canonical text parses. |
| `DateText.DateTextOrder` | src/finance/repository.rs:895-908 | Text order of stored dates is calendar order. |
| `DateText.TimestampTextOrder` | src/scheduler.rs:445-456 | Text order of millisecond timestamps is time order. |
| `DateText.FormattedIsCanonical` | src/operations/repository.rs:657-677 | Every formatted timestamp passes the fixed-width check. |
| `DateText.MomentText` | src/operations/repository.rs:657-677 | The text of a moment has its date, hour, minute, second and millisecond. |
| `DateText.EpochIs1970` | src/operations/repository.rs:657-677 | Unix time begins on the first of January 1970. |
| `DateText.TimestampShape` | src/operations/repository.rs:657-677 | The form of a stored timestamp, place by place. |
| `MediaKey.AwsEncode` | src/media/key.rs:224-238 | The loop over bytes writes the specified encoding (sections 2.1 and 2.3 of RFC 3986). |
| `MediaKey.DecodeUrlKey` | src/media/key.rs:190-213 | The loop with its moving cursor is the specified decoder, errors included. |
| `MediaKey.DecodeUndoesEncode` | src/media/key.rs:190-240 | Decoding undoes encoding on exactly the texts that are UTF-8 and have no percent sign, backslash, control byte, or slash that is not preserved. |
| `MediaKey.RouteUrlRoundTrip` | src/media/key.rs:16-25 | The route URL of every canonical photo key is classified as stored under that key, whatever a URL parser says of it. |
| `MediaKey.RouteUrlIsInjective` | src/media/key.rs:91-102 | Two keys have one route URL only if they are equal. |
| `MediaKey.StoredKeysAreCanonical` | src/media/key.rs:16-89 | Whatever form a URL has (the site's path, http, https, s3), a key it is stored under is canonical, and one of the site's own paths is under the photo prefix. |
| `MediaUrls.WebPhotoIsStored` | src/media/key.rs:31-56 | An http or https URL of a key is stored under it, behind a bucket host as the path and behind a path host after the bucket; elsewhere it is external. |
| `MediaUrls.S3PhotoIsStored` | src/media/key.rs:57-70 | An S3 location of a key is stored under it. |
| `MediaUrls.SitePathsAre` | src/media/key.rs:16-25 | Both paths of this site lead to a photo's key, and the route is the first of them. |
| `MediaUrls.QueryIsDropped` | src/media/key.rs:143-150 | A query or fragment is no part of the key of a stored object. |
| `MediaUrls.RefusedUrls` | src/media/key.rs:27-73 | Credentials, other schemes and texts that are no URL are refused. |
| `MediaKey.NoDotSegments` | src/media/key.rs:68-89 | No segment of a key is empty, "." or "..". |
| `MediaKey.KeyLimits` | src/media/key.rs:68-89 | What no key contains, and its length. |
| `MediaKey.EncodingTexts` | src/media/key.rs:224-238 | Encoded texts, with upper-case digits. |
| `MediaKey.Utf8Texts` | src/media/key.rs:190-213 | What is and is not UTF-8 at the edges. |
| `MediaKey.NormalisingIsIdempotent` | src/media/key.rs:128-134 | Normalising again the URL of any accepted photo, whatever form it came in, gives the same key. |
| `TmoSafety.ReplacingIsReplacement` | src/integrations/tmo_write.rs:445-610 | After mark, upsert and sweep: the connection's payments are exactly the captured ones and the stream's history events exactly theirs; surviving rows keep ids and unwritten columns; everything else is as it was but for events that lost their payment and retired projections. |
| `TmoSafety.OneEventAPayment` | src/integrations/tmo_write.rs:532-560 | Among the connection's payments, exactly the one of its identity is linked to a history event. |
| `TmoEvents.EventsShowPayments` | src/integrations/tmo_write.rs:509-560 | The event of every captured payment has its date, its amount without sign and the title of borrower and property; it is received with that date and amount exactly if the trimmed check number is not empty and does not contain "print" in any case, and confirmed otherwise. |
| `TmoEvents.IssuedCheckIsReceived` | src/integrations/tmo_write.rs:517-545 | Check 1043 of 500.00 is received. |
| `TmoEvents.UnprintedCheckIsConfirmed` | src/integrations/tmo_write.rs:517-545 | A check still to be printed is confirmed, with nothing received. |
| `TmoEvents.DateIsRead` | src/integrations/tmo_write.rs:787-793 | A date is read as it is, and a time after it is dropped. |
| `TmoSafety.ReplacingIsIdempotent` | src/integrations/tmo_write.rs:445-610 | Applying the same payments again changes nothing. |
| `TmoSafety.ExternalIdIsInjective` | src/integrations/tmo_write.rs:774-785 | The external id is the loan, the date and the cents, whatever characters the loan account has. |
| `TmoSafety.SweepIs` | src/integrations/tmo_write.rs:562-607 | What the four deletes with their cascades take, and that they keep ids, foreign keys and equal-id links. |
| `TmoSafety.UpsertsKeep` | src/integrations/tmo_write.rs:459-560 | The loop of upserts writes and links every captured payment and touches no other row or link. |
| `TmoLoans.ReplacingLoans` | src/integrations/tmo_write.rs:243-398 | Afterwards the active loans are exactly the captured ones; rows keep their ids and streams, and loans that are gone keep all but their activity. |
| `TmoLoans.CapturedLoanShows` | src/integrations/tmo_write.rs:243-398 | A captured loan is active, keeps its id and stream, and shows its last detail if one came and its summary otherwise. |
| `TmoLoans.ReplacingLoansIsIdempotent` | src/integrations/tmo_write.rs:243-398 | The same capture again changes no loan. |
| `TmoLoans.DetailsNeverMiss` | src/integrations/tmo_write.rs:328-383 | The details of captured loans always find their row, and the last detail of a loan counts. |
| `TmoSync.SyncIsReplacement` | src/integrations/tmo_write.rs:101-398 | After a successful sync payments, history events, links and active loans are exactly those captured, and surviving rows keep their ids. |
| `TmoSync.SyncIsIdempotent` | src/integrations/tmo_write.rs:101-398 | Applying one capture twice is applying it once. |
| `TmoSync.SyncAllIsIdempotent` | src/integrations/tmo_write.rs:101-407 | The same for payments, loans and the recorded connection, account, overview and snapshot together. |
| `TmoRecord.ActiveIffAllDetails` | src/integrations/tmo_write.rs:110-143 | After a sync the connection is active and without an error exactly if every loan's detail came, and degraded otherwise; other connections are as they were. |
| `TmoRecord.RecordShows` | src/integrations/tmo_write.rs:110-238 | What the connection, the account and the overview show of a capture. |
| `TmoRecord.DayShowsItsLastCapture` | src/integrations/tmo_write.rs:207-238 | Over any syncs: a day's portfolio snapshot is that of its last capture, other days keep theirs, and none disappears. |
| `TmoRecord.OverviewIsSnapshot` | src/integrations/tmo_write.rs:170-238 | Over any syncs of one connection its overview of a captured day is that day's snapshot, and an overview keeps its time of creation. |
| `TmoSync.SyncsKeepTables` | src/integrations/tmo_write.rs:445-610 | After any syncs, whatever streams they resolve to: ids unique, foreign keys hold, links join equal external ids. |
| `TmoSync.SyncSucceedsIff` | src/integrations/tmo_write.rs:675-785 | A sync is refused exactly for an invalid capture (numbers that are not finite and amounts without 64-bit cents included), a missing connection or stream, or a date text of a loan or detail that does not parse. |
| `TmoCaptures.AcceptedIffWhole` | src/integrations/tmo_write.rs:675-772 | A capture is accepted exactly if it is whole, told from its numbers and texts. |
| `TmoCaptures.CentsAre` | src/integrations/tmo_write.rs:774-785 | The cents of an amount, up to the limit of 64 bits. |
| `TmoCaptures.IdTexts` | src/integrations/tmo_write.rs:779-784 | The external ids on record. |
| `TmoSync.ValidateCapture` | src/integrations/tmo_write.rs:675-772 | The loops with their growing sets accept exactly the whole captures. |
| `TmoSync.IntegrationWriteRepository.ReplacePaymentProjection` | src/integrations/tmo_write.rs:445-610 | The statements, with their loop, are the specified replacement. |
| `TmoSync.IntegrationWriteRepository.WriteRecord` | src/integrations/tmo_write.rs:110-238 | The four statements on connection, account, overview and snapshot are the specified record. |
| `TmoSync.IntegrationWriteRepository.ApplyTmoSync` | src/integrations/tmo_write.rs:101-407 | A whole sync is the specified one, record, loans and payments together, and an error on the way rolls everything back. |
| `TmoPages.GetPortfolio` | src/providers/tmo.rs:173-202 | For any server the loop ends: with the whole listing in order exactly if the server describes one, after at most as many pages as rows, and never with a page overflow. |
| `TmoPages.Collector.AppendPage` | src/providers/tmo.rs:359-392 | A page is appended exactly if it is acceptable, and completes the listing exactly when the rows reach the announced total. |
| `TmoPages.OneListing` | src/providers/tmo.rs:173-202 | A server describes at most one listing. |
| `TmoPages.ListingIs` | src/providers/tmo.rs:359-392 | Pages are a listing exactly if each says its number, a size it does not exceed and the same total, is not empty while rows are missing, and the rows reach the total with the last page only. |
| `TmoPages.PagesBringRows` | src/providers/tmo.rs:372-379 | Every page of an unfinished listing brings a row. |

## Left out

- Forecast.ComputeForecast: money is whole cents, because floating-point addition is not associative; the events are those of active streams that are not excluded, with their effective dates and amounts.
- Forecast.ComputeScopedForecast: the streams of a view are an input (none for an inactive view); names, labels and certainty of a row are not modelled.
- Scheduler.AttemptsAreBounded: slots must lie in years 0 to 9999, where the log's text can write them.
- TmoPages.GetPortfolio: the server answers each page once, as the loop asks once.
- MediaKey.NormalisingIsIdempotent: what the URL parser reports (scheme, credentials, query, fragment) and whether a host is S3 or R2 are inputs; a key of an absolute URL outside the photo prefix has no route.
- EventEffects.PatchShowsItsValues: the account shown is the event's own; the stream's default for events without one is not modelled.
- CronPass.CronService.RunCronAt: what a due sync answers, and the control row it leaves, are inputs; the cadence is parsed already.
- TmoSync.IntegrationWriteRepository.ApplyTmoSync: the timestamps of loans and payments, raw payload texts, and the ids of overview and snapshot rows are not modelled.
- Database statements still in flight when their sender has given up: a statement either happened or never does. Two reads after a refused mark, and the two checks around the interruption of stale runs, are taken at one instant.
- Writers of email rows outside the lease protocol (`src/workspace_inbox/repository.rs`).
- The TMO owner (`src/sync_runtime/mod.rs`), which claims and completes runs like the Monarch service.
- SQL text, row decoding, storage failures, JSON validity, and the rounding of floating-point amounts to cents.
- Years before 0; timestamps that look canonical but name no time, and dates that are not zero-padded or carry a time, which the tables refuse later than the model does.
- Unicode white space and control characters outside ASCII; texts are byte sequences in keys.
- `updated_at`, `created_at` and similar columns that no decision reads; errors and panics of date arithmetic are one outcome.
- Columns of streams and schedules that projections do not read, and the view attached when a stream is saved.
- Loading the Monarch connection and its credential before a sync, and editing cadences.
- Provider calls and their contents beyond an answer or an error; HTTP handlers, middleware, templates, routes and configuration.
- Credentials, signatures, presigned URLs and upload intents.
- Accounts, views, listings and bootstrap, which would only add simple members.
- The 30-second session and user caches.
