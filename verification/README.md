# Verified model of the OCR proxy, its Mac workers and its clients

This project models, in Dafny, the parts of the repository where a wrong step is hard to see: the document
ledger and attempt lifecycle in PostgreSQL, the dispatch protocol between the scheduler, the worker hub and the
Macs, the two capacity allocators, and five stream and text algorithms. `dafny verify dfyconfig.toml` checks all
of it.

## How it is laid out

- **Ledger and lifecycle.** `Tables` holds the rows and gives every transaction as a function from tables to
  tables; `Repository` is the object that runs the same transactions statement by statement on its fields and is
  proved equal to those functions. `Batches` and `Ledger` prove the storage sums, `Lifecycle` defines runs of
  transactions, `Attempts`, `Progress`, `Outcomes` prove what every run keeps, and `Retention` interleaves the
  cleanup worker with the service. `Submissions`, `Claims` and `Notices` say what is refused, selected and written
  field by field, and prove the document quota, the wait in the queue and the links over runs.
- **Dispatch.** `NativeWorker` is the Mac's allocator, `Hub` the proxy's worker hub, both as objects proved
  against value functions; `HubRuns` is every run of the hub under one scheduler loop. `Scheduling` is one turn of
  the scheduler over the repository and hub objects.
  `Protocol` is the distributed system: scheduler position, hub, stored routes, requests and acknowledgements in
  flight, slots on the Macs, interleaved with every transaction of `Lifecycle`; `Tightness` runs it to the edge of
  its main theorem.
- **Streams and text.** `EventStream` (identifiers, paging, printing, parsing, resuming), `HttpReader`,
  `EditDistance`, `PageText`, `Layout`.
- `Sums`, `Text`, `Wrappers` are shared vocabulary.

Each SQL transaction, and each critical section of the hub or of the Mac's actor, is one step. Time is a number
that never decreases; a call that reads the clock several times sees one instant. Attempt identifiers, document
identifiers and generated object keys are fresh. Outcomes of storage, sockets and foreign libraries are parameters.

## What the proofs found

- A scanned PDF in `auto` mode is not guaranteed to reach OCR. The text claim followed by its release leaves
  every field the claim queries read as it was, and the next turn asks for text work first, so the same document
  can be claimed for text any number of times (`Progress.TextBouncesForever`). A turn makes an OCR claim only when
  its text query finds nothing, and that claim takes a text-eligible PDF if and only if the PDF became text work
  between the two queries: it was submitted, was handed back, or its lease ended
  (`Progress.TurnSendsTextPdfToOcrExactly`). The extractor runs beside the loop, so it can hand a document back at
  that moment, and then the PDF does go to OCR (`Progress.HandedBackInsideTurn`).
- Cleanup is safe exactly when an upload is left alone at least as long as its reservation lives. Both lifetimes
  come from one setting, so it holds as configured; with a shorter orphan age there is a run that deletes the
  input of a queued document (`Retention.CleanupSafeExactly`).
- Resetting `doc_used` makes it differ from created minus refunded unless it was zero already
  (`Outcomes.ResetKeepsUsageExactly`). Without resets the refund's clamp never fires.
- The Mac does not bound its operator limit or job weights, the hub does. A Mac configured beyond the bounds can
  emit a report that the hub answers by closing the connection, whatever the other settings of its policy
  (`NativeWorker.ReportsAlwaysValidExactly`).
- A worker that stays eligible waits for fewer reservations than there are workers, but a worker that connects anew
  counts as never selected and goes ahead again, once per connection (`HubRuns.ChosenWithinOneRound`).
- The scheduler's own check of the offered capacity never rejects a worker: what the hub offers always has room
  (the branch is an `assert false` in `Scheduling.Scheduler.PollAndDispatch`).
- The event stream can lose events in three ways, and in no other (`EventStream.ArrivesExactly`,
  `EventStream.EveryEventOnceExactly`). A row that cannot be seen when the cursor passes its identifier is never
  listed again: retention may have removed it, and since identifiers are minted before the transaction that makes
  the row visible commits, a row can also appear below the cursor already reached (`EventStream.OvertakenExactly`,
  `EventStream.LateCommitIsOvertaken`); neither needs a broken connection. The client
  moves its resume cursor when the `id:` line arrives, not when the event is dispatched as in section 9.2.6 of the
  WHATWG HTML standard, so a connection cut between that line and the blank line loses the event. And notices of
  scans carry a `scanId`, which the client drops for want of a `documentId` (`EventStream.ScanNoticesNeverArrive`).
  What does arrive is in order and never repeated.
- The hub books an image for a job without a media type where the Mac charges a PDF; for every other type both agree
  (`HubRuns.BookedIsWhatTheMacCharges`).
- The word error rate is always within [0, 1]; the character error rate is not, because characters are not cut to
  the expected length (`EditDistance.CharacterRateWithinOneExactly`).
- The page sort's comparator is not an order when nearness is not transitive
  (`Layout.ComparatorCyclesExactly`, `Layout.ComparatorCycleExample`).
- The recomputation of the storage counters at startup never has anything to repair in a database that only the
  modelled transactions have touched (`Lifecycle.CountersExactInEveryRun`).

## Model

| member | source | states |
|---|---|---|
| `Repository.DocumentStore.ReserveUpload` | proxy/internal/repository/postgres/config.go:65-100 | reserves the bytes and inserts the row, or refuses with the source's error and leaves no trace; equal to the transaction function of Tables |
| `Repository.DocumentStore.ReleaseUpload` | proxy/internal/repository/postgres/config.go:102-138 | gives back exactly the reservation that is still reserved by this user; anything else is a successful no-op |
| `Repository.DocumentStore.ValidateBatch` | proxy/internal/repository/postgres/document.go:63-100 | the validation loop reports the first refused item in batch order and otherwise the charged bytes, consumed bytes and consumed reservations of the whole batch |
| `Repository.DocumentStore.InsertBatch` | proxy/internal/repository/postgres/document.go:115-122 | inserts every row or reports a clash, exactly when an identifier is taken or repeated |
| `Repository.DocumentStore.ConsumeBatch` | proxy/internal/repository/postgres/document.go:123-132 | every guarded update finds its reservation, so the row-count check cannot fail |
| `Repository.DocumentStore.CreateManyWithQuota` | proxy/internal/repository/postgres/document.go:43-137 | the whole submission transaction equals its function: same error in the same order of checks, all rows or none |
| `Repository.DocumentStore.ClaimNext` | proxy/internal/repository/postgres/document.go:415-538 | for each of the four claim queries: takes a claimable row that comes first by the query's order, or reports that none is claimable |
| `Repository.DocumentStore.RequeueAttempt` | proxy/internal/repository/postgres/document.go:540-550 | fenced return to the queue that keeps the attempt count |
| `Repository.DocumentStore.ReleaseAttempt` | proxy/internal/repository/postgres/document.go:552-563 | fenced return to the queue that gives the attempt back |
| `Repository.DocumentStore.ListExhaustedAttempts` | proxy/internal/repository/postgres/document.go:565-595 | lists distinct exhausted documents, earliest lease first, at most the limit, and leaves one out only when the limit is reached and its lease ends no earlier than any listed one's |
| `Repository.DocumentStore.FinalizeAttempt` | proxy/internal/repository/postgres/document.go:597-634 | fenced terminal update, refund and notification in one transaction; a failing notification rolls everything back |
| `Repository.DocumentStore.CancelWithRefund` | proxy/internal/repository/postgres/document.go:385-413 | cancels only the user's own queued document, with refund and notification, or nothing |
| `Repository.DocumentStore.MarkInputExpired` | proxy/internal/repository/postgres/document.go:716-747 | frees the input of a finished document and its consumed reservation |
| `Repository.DocumentStore.DeleteExpiredDocument` | proxy/internal/repository/postgres/document.go:771-804 | deletes a finished old document, frees its bytes if still charged, and applies the foreign keys' actions |
| `Repository.DocumentStore.MarkResultExpired` | proxy/internal/repository/postgres/document.go:685-692 | blanks a stored result only once its expiry has passed |
| `Repository.DocumentStore.ResetDocUsed` | proxy/internal/repository/postgres/config.go:208-222 | sets the document counter of an existing account to zero |
| `Repository.DocumentStore.CreateNotification` | proxy/internal/repository/postgres/notification.go:26-40 | inserts a notice unless its document, type and channel already have one |
| `Submissions.ReservationAnswers` | proxy/internal/repository/postgres/config.go:65-100 | every reason an upload is refused for, on the account's and the row's own fields, in the order of the checks |
| `Submissions.DocumentQuotaRefusalExactly` | proxy/internal/repository/postgres/document.go:55-61 | a submission is refused for the document quota if and only if the account has one and the batch would exceed it, whatever else is wrong with the batch |
| `Submissions.ItemRefusalExactly` | proxy/internal/repository/postgres/document.go:63-100 | otherwise the first item that is not the user's, not positive, repeated, or without a live upload of its size decides, with its error |
| `Submissions.SubmissionAcceptedExactly` | proxy/internal/repository/postgres/document.go:43-137 | a batch is accepted if and only if it is within both quotas, every item is usable and the identifiers are new |
| `Submissions.SubmittedDocumentsWait` | proxy/internal/repository/postgres/document.go:115-122 | every document of an accepted batch waits, with all fields as submitted and nothing of an outcome; no other row changed |
| `Submissions.SubmissionConsumes` | proxy/internal/repository/postgres/document.go:123-132 | exactly the user's uploads among the inputs become consumed, each linked to its document |
| `Submissions.SubmissionCharges` | proxy/internal/repository/postgres/document.go:108-114 | the document counter rises by the batch; used plus reserved bytes rise by what no upload covered |
| `Submissions.DocumentQuotasInEveryRun` | proxy/internal/repository/postgres/document.go:55-61 | in every run no account with a document quota has used more than it |
| `Ledger.SubmitKeepsBalance` | proxy/internal/repository/postgres/document.go:63-137 | a submission keeps both storage counters equal to their recomputation and within the quota, and never ends in the conflict branch |
| `Ledger.ConsumedIsReserved` | proxy/internal/repository/postgres/document.go:101-104 | what a valid batch consumes never exceeds the reserved counter: the "counter is inconsistent" branch cannot run |
| `Ledger.StorageRefusalExactly` | proxy/internal/repository/postgres/document.go:101-107 | a checked batch is refused for storage if and only if its unreserved bytes exceed the headroom; a fully reserved batch never is |
| `Ledger.ReserveKeepsBalance` | proxy/internal/repository/postgres/config.go:75-100 | reserving keeps counters exact and within quota |
| `Ledger.ReleaseKeepsBalance` | proxy/internal/repository/postgres/config.go:102-138 | releasing keeps the balance and subtracts exactly the reserved bytes: the clamp never fires |
| `Ledger.ExpireKeepsBalance` | proxy/internal/repository/postgres/document.go:716-747 | input expiry keeps the balance and subtracts exactly the document's bytes: the clamp never fires |
| `Ledger.DeleteFreesExactly` | proxy/internal/repository/postgres/document.go:771-804 | deletion subtracts what the document is still charged, nothing if its input had expired; the clamp never fires |
| `Ledger.DeleteKeepsBalance` | proxy/internal/repository/postgres/document.go:771-804 | deletion keeps counters exact and within quota |
| `Ledger.ReconcileIsNoOp` | proxy/internal/repository/postgres/migrate.go:129-137 | on balanced tables the from-scratch recomputation changes nothing |
| `Lifecycle.BalancedInEveryRun` | proxy/internal/repository/postgres/migrate.go:129-137 | after every run of reserve, release, submit, claim, requeue, finalize, cancel, expire and delete, both storage counters equal the sums and no account is over quota |
| `Lifecycle.CountersExactInEveryRun` | proxy/internal/repository/postgres/migrate.go:129-137 | so the startup reconciliation is the identity on every reachable database |
| `Attempts.StepKeepsAttempts` | proxy/internal/repository/postgres/document.go:415-563 | every step keeps the attempt column naming the document's latest claim and the attempt budget |
| `Attempts.AttemptsSoundInEveryRun` | proxy/internal/repository/postgres/document.go:415-442 | queued implies an attempt is left, processing implies between one and the maximum, though claims of queued rows never check the count |
| `Attempts.ExpiredLeasePartition` | proxy/internal/repository/postgres/document.go:565-572 | every passed lease is either reclaimable or exhausted, never both and never neither |
| `Claims.ModesOfQueries` | proxy/internal/repository/postgres/document.go:444-476 | the text query takes exactly PDFs in automatic or text mode |
| `Claims.ClaimTakesOldest` | proxy/internal/repository/postgres/document.go:415-538 | a claim takes a queued document before a left-behind one, and the oldest of its kind |
| `Claims.QueueWaitIsBounded` | proxy/internal/repository/postgres/document.go:415-538 | in every run, the claims that a queued document answers too and that take another are at most the queued documents no younger than it, plus one for each document handed back |
| `Claims.HandBackWrites` | proxy/internal/repository/postgres/document.go:540-563 | requeueing and releasing need the attempt in charge, restore the row to waiting and differ in the count alone |
| `Claims.CancelWrites` | proxy/internal/repository/postgres/document.go:385-413 | only the user's own queued document is cancelled; a refused or failed cancellation changes nothing |
| `Claims.ConclusionAnswers` | proxy/internal/repository/postgres/document.go:597-634 | an outcome is refused for its status, then for an attempt not in charge, then for a used event name or notice identifier, and otherwise accepted |
| `Claims.ConclusionsDistinctInEveryRun` | proxy/internal/repository/postgres/document.go:597-634 | in every run no event has concluded two documents |
| `Claims.FinishedLeavesWhenOld` | proxy/internal/repository/postgres/document.go:771-804 | a finished document keeps its time of conclusion and stays until a deletion whose cutoff is no earlier |
| `Claims.LinksResolveInEveryRun` | proxy/internal/repository/postgres/document.go:123-132 | in every run a reservation's document link leads to an existing row, and only consumed reservations have one |
| `Progress.StepUsesWork` | proxy/internal/repository/postgres/document.go:415-634 | the measure 2(max-c), 2(max-c)+1, 0 strictly falls at every lifecycle step, rises by exactly one at a release, and is otherwise unchanged |
| `Progress.WorkIsAccountedFor` | proxy/internal/scheduler/scheduler.go:103-361 | work done plus work left is covered by what submissions and releases put in |
| `Progress.LifecycleTerminates` | proxy/internal/scheduler/scheduler.go:103-361 | in every run the lifecycle steps number at most 2·max·documents plus releases |
| `Progress.ViewsDecideClaims` | proxy/internal/repository/postgres/document.go:415-538 | the claim queries depend on status, count, lease, type, mode and creation time only |
| `Progress.TurnSendsTextPdfToOcrExactly` | proxy/internal/scheduler/scheduler.go:103-160 | in a turn whose text query finds nothing, with any run of transactions before its OCR claim, the claim takes a text-eligible document if and only if that document became text work in between: it was submitted or handed back, or its lease ended |
| `Progress.HandedBackInsideTurn` | proxy/internal/scheduler/scheduler.go:111-117 | there is such a turn: the text query comes while the extractor holds the document, the release commits, and the OCR claim takes it |
| `Progress.OneBounce` | proxy/internal/scheduler/scheduler.go:221-241 | text claim then release is a net no-op on everything the claim queries read |
| `Progress.TextBouncesForever` | proxy/internal/scheduler/scheduler.go:105-117 | for every n and every lease there is a valid run that bounces a scanned auto-mode PDF n times and leaves it as claimable as before |
| `Outcomes.TerminalForever` | proxy/internal/repository/postgres/document.go:597-634 | a terminal document keeps status, attempt, event, error and owner through every continuation until deleted, and a deleted identifier never returns |
| `Outcomes.FirstAcceptedCallbackWins` | proxy/internal/rest/webhook.go:252-328 | after any number of callbacks for any attempts in any order the row holds, field by field, the status, event, result, error and expiry of the first accepted one, and all others for it were refused |
| `Outcomes.AcceptedOutcomeIsKept` | proxy/internal/repository/postgres/document.go:597-634 | over every continuation the document shows that status, event and error, and that result key and text until a removal at or after the expiry they came with |
| `Outcomes.RetriesAreAcknowledged` | proxy/internal/rest/webhook.go:216-250 | a callback proceeds only with the fencing attempt; once accepted, its retries are acknowledged and every other attempt conflicts, for ever |
| `Outcomes.MisdirectedCallbacks` | proxy/internal/rest/webhook.go:216-250 | callbacks for unknown documents, from other nodes, of the wrong kind or of other attempts are refused |
| `Outcomes.RefundedAtMostOnce` | proxy/internal/repository/postgres/document.go:385-413 | a step that refunds finds the document not refunded before |
| `Outcomes.UsageExactInEveryRun` | proxy/internal/repository/postgres/document.go:597-634 | without resets, `doc_used` is created minus refunded for every user in every run |
| `Outcomes.ResetKeepsUsageExactly` | proxy/internal/repository/postgres/config.go:208-222 | a reset keeps that equation if and only if the counter was zero already |
| `Outcomes.EventsAfterStep` | proxy/internal/repository/postgres/document.go:814-831 | a step adds at most one notice, and only where the unique index had none |
| `Outcomes.NotificationsSoundInEveryRun` | proxy/internal/notifications/service.go:33-72 | in every run each notice belongs to a finished document and carries its terminal status |
| `Outcomes.OneNoticePerChannel` | proxy/internal/repository/postgres/notification.go:31-35 | at most one notification event per document and channel, though the outbox and the publisher both insert |
| `Notices.NoticeRecordedExactly` | proxy/internal/repository/postgres/notification.go:26-40 | a notice is recorded unless its document, type and channel have one; the other channel does not count |
| `Notices.TypesAgree` | proxy/internal/notifications/service.go:47-72 | the stored type of a notice is the type in its payload, whose fields name a scan or a document by the mode |
| `Retention.NewReferenceIsLiveOrUnseen` | proxy/internal/repository/postgres/document.go:83-96 | a document gets an input key only by consuming a live reservation of it, or if the key was never seen: a released upload cannot be submitted |
| `Retention.StepKeepsKeysSound` | proxy/internal/repository/postgres/document.go:79-96 | every input key has one owner, and none while its reservation is unconsumed |
| `Retention.ListedIsNotLive` | proxy/internal/retention/worker.go:149-175 | an object old enough to be listed as orphan has no reservation that could still be consumed |
| `Retention.ReleaseKeepsCleanup` | proxy/internal/retention/worker.go:116-147 | releasing an expired reservation leaves an object that no document references or ever will |
| `Retention.CleanupSoundInEveryRun` | proxy/internal/retention/worker.go:81-249 | with transactions committing between listing, checking and deleting, every key marked for deletion stays disposable |
| `Retention.CleanupIsSafe` | proxy/internal/retention/worker.go:149-249 | cleanup never deletes the input of a document that is not terminal |
| `Retention.RaceIsUnsafe` | proxy/cmd/proxy/main.go:90-124 | with a shorter orphan age there is a run in which submission comes between check and delete |
| `Retention.CleanupSafeExactly` | proxy/cmd/proxy/main.go:90-124 | cleanup is safe in all runs if and only if the orphan age is at least the reservation lifetime; the program passes the same setting for both |
| `NativeWorker.DecideMonotone` | native/Sources/MacOCRNative/ResourceCapacity.swift:125-148 | the limit is monotone in ceiling, cores and memory, antitone in thermal pressure, and within the ceiling |
| `NativeWorker.DecideZeroExactly` | native/Sources/MacOCRNative/ResourceCapacity.swift:125-148 | no work is allowed exactly when paused, critically hot, or without a spare core or a spare memory unit |
| `NativeWorker.LimitIsLargestAffordable` | native/Sources/MacOCRNative/ResourceCapacity.swift:125-148 | for every n, n units are within the limit if and only if they fit the ceiling, the spare cores and memory, and the heat |
| `NativeWorker.DecisionReasons` | native/Sources/MacOCRNative/ResourceCapacity.swift:125-148 | which reason is given when |
| `NativeWorker.NativeWorkerState.TryAcquireSlot` | native/Sources/MacOCRNative/Server.swift:62-71 | the actor's new state, answer and report are those of the value function |
| `NativeWorker.NativeWorkerState.ReleaseSlot` | native/Sources/MacOCRNative/Server.swift:73-80 | the same for release, with the next sequence number |
| `NativeWorker.NativeWorkerState.UpdateOperatorLimit` | native/Sources/MacOCRNative/Server.swift:82-88 | the same for a changed ceiling |
| `NativeWorker.NativeWorkerState.RefreshAdaptiveLimit` | native/Sources/MacOCRNative/Server.swift:95-123 | the same for the hysteresis step |
| `NativeWorker.NativeWorkerState.CurrentCapacity` | native/Sources/MacOCRNative/Server.swift:125-151 | the report computed from the current state |
| `NativeWorker.NativeWorkerState.GetCapacity` | native/Sources/MacOCRNative/Server.swift:90-93 | a report after one hysteresis step and nothing else |
| `NativeWorker.NativeWorkerState.constructor` | native/Sources/MacOCRNative/Server.swift:29-60 | starts empty, with the first decision in force |
| `NativeWorker.TracksEveryHistory` | native/Sources/MacOCRNative/Server.swift:95-123 | candidate and counter are exactly the trailing streak of the decision history |
| `NativeWorker.HysteresisOverHistories` | native/Sources/MacOCRNative/Server.swift:95-123 | the effective limit is a function of the decisions alone, is at most the last decision and the ceiling, and rises if and only if the last `recoverySamples` decisions were the same higher limit |
| `NativeWorker.SteadyDecisionsTakeEffect` | native/Sources/MacOCRNative/Server.swift:95-123 | a limit decided `recoverySamples` times in a row is in force whatever came before |
| `NativeWorker.CallKeepsBooks` | native/Sources/MacOCRNative/Server.swift:62-80 | active units equal the sum of allocations after every call; the release clamp never fires |
| `NativeWorker.GrantStaysWithinLimit` | native/Sources/MacOCRNative/Server.swift:62-71 | in every history a slot is granted exactly if it fits, and then all use is within the effective limit and the ceiling |
| `NativeWorker.ReleaseUndoesAcquire` | native/Sources/MacOCRNative/Server.swift:62-80 | a release right after a grant restores allocations and units |
| `NativeWorker.ReportSaysWhatIsGranted` | native/Sources/MacOCRNative/Server.swift:125-151 | a job is granted exactly if the report does not say paused and offers its units; as many image jobs fit as slots are reported |
| `NativeWorker.VersionNamesLimits` | native/Sources/MacOCRNative/Server.swift:82-123 | in every history reports of one version agree on both limits, later versions are larger, and the sequence counts the releases |
| `NativeWorker.ReportsAreValid` | proxy/internal/native/workers.go:298-300 | every capacity emitted under limits of at most 1024 and weights of at most 1048576 passes the hub's check, adaptive or not |
| `NativeWorker.ReportsAlwaysValidExactly` | proxy/internal/native/workers.go:298-300 | under every policy, every capacity emitted under a bound on the limit passes the hub's check if and only if the bound is at most 1024 and both weights at most 1048576 |
| `Hub.WorkerHub.CountReservations` | proxy/internal/native/workers.go:435-443 | the inner loop keeps exactly the unexpired reservations and counts their slots and units |
| `Hub.WorkerHub.Look` | proxy/internal/native/workers.go:430-449 | one session in the scan: skipped, or pruned and eligible exactly by what it still offers |
| `Hub.WorkerHub.Scan` | proxy/internal/native/workers.go:428-454 | prunes every eligible session and finds a least recently selected one with the most units, or shows that none is eligible |
| `Hub.WorkerHub.Reserve` | proxy/internal/native/workers.go:425-465 | the same, plus the new reservation on the chosen session |
| `Hub.WorkerHub.Release` | proxy/internal/native/workers.go:466-472 | removes the reservation from every session and nothing else |
| `Hub.WorkerHub.Complete` | proxy/internal/native/workers.go:538-548 | removes every reservation of the attempt and nothing else |
| `Hub.WorkerHub.Connect` | proxy/internal/native/workers.go:187-199 | replaces the session and moves its reservations and pause state |
| `Hub.WorkerHub.Dispatch` | proxy/internal/native/workers.go:485-510 | refuses and drops the reservation unless its session is current, capable, connected and not paused; otherwise marks it with units, attempt and lease |
| `Hub.WorkerHub.Receive` | proxy/internal/native/workers.go:246-264 | a message counts only on the current socket and with a valid capacity |
| `Hub.EligibleExactly` | proxy/internal/native/workers.go:428-449 | a worker is eligible if and only if it is connected, unpaused, not revoked, heard of within twenty seconds, able, and has a slot and a unit to spare |
| `Hub.BestExactly` | proxy/internal/native/workers.go:447-454 | the chosen worker waited longest since it was selected, and among equals offers most |
| `Hub.DispatchNeedsWorker` | proxy/internal/native/workers.go:485-501 | nothing is sent to a replaced session, a lost connection, a paused worker or one without the capability |
| `Hub.ConnectStartsOver` | proxy/internal/native/workers.go:187-199 | a reconnect cannot lift a pause, and the new session can take nothing until it says what it can do |
| `Hub.ReserveWithinSlotLimit` | proxy/internal/native/workers.go:425-465 | after a reservation the chosen worker's live count is one more and within its reported limit; others are unchanged |
| `HubRuns.PromisesStayWithinReport` | proxy/internal/native/workers.go:425-548 | in every run of reservations, dispatches, releases, completions, reconnects of other workers and other changes during which a worker's report stays as it is, its live reservations stay within the reported limit and their units within available plus active units |
| `HubRuns.BookedIsWhatTheMacCharges` | proxy/internal/native/workers.go:502-506 | in every run since the hub started, the units booked for an attempt are those its Mac allocates for it, if and only if its media type is not empty or both weights are equal |
| `HubRuns.ClaimFitsTheMac` | proxy/internal/repository/postgres/document.go:509-538 | a claim made for a Mac's report takes exactly documents of a kind it offers whose charge on that Mac fits the offered units |
| `HubRuns.ChosenWithinOneRound` | proxy/internal/native/workers.go:447-458 | in every run, the reservations that pass over an eligible worker are fewer than the workers, plus one for each time a worker connects anew |
| `Scheduling.Scheduler.PollAndDispatch` | proxy/internal/scheduler/scheduler.go:119-219 | the answers determine the outcome; exactly when sending was begun and the Mac has not refused does the reservation stay, under the claimed attempt and a full lease, and otherwise it is gone; the document is handed back only on a refusal |
| `Scheduling.Scheduler.ClaimAndDispatch` | proxy/internal/scheduler/scheduler.go:145-219 | the same from the claim on, for the capacity offered by the reserved worker |
| `Scheduling.Scheduler.Dispatch` | proxy/internal/native/workers.go:485-537 | the same from the hub's precheck to the acknowledgement |
| `Scheduling.Scheduler.RetryOrFail` | proxy/internal/scheduler/scheduler.go:313-321 | requeues while attempts are left, otherwise fails with refund |
| `Scheduling.Scheduler.FailDocument` | proxy/internal/scheduler/scheduler.go:323-350 | the fenced failure with refund, and whether it was accepted |
| `Scheduling.Scheduler.FailExhaustedAttempts` | proxy/internal/scheduler/scheduler.go:352-361 | applies the failure with its notice to every listed document, earliest lease first, and lists them all if there are fewer than a hundred |
| `Scheduling.ClaimedCanBeDispatched` | proxy/internal/scheduler/scheduler.go:145-199 | the turn asks for what its worker can do: unless the worker changes meanwhile, the hub's precheck passes for the claimed document |
| `Scheduling.RefusedTurnLeavesQueue` | proxy/internal/scheduler/scheduler.go:201-208 | after a refusal of a document taken from the queue, every claim query has the same next document at every time as if the turn had not happened |
| `Scheduling.StorageFailureUsesAttempt` | proxy/internal/scheduler/scheduler.go:163-168 | an unreadable input costs the attempt: requeued if and only if another is left, else failed under the turn's event, refunded, and its notice recorded |
| `Scheduling.FailAllFinishes` | proxy/internal/scheduler/scheduler.go:323-361 | with unused event names the pass fails each listed document under its own event and touches no other, lowers every user's counter by the number of their listed documents but not below zero, and records each notice and nothing else |
| `Protocol.MoveKeepsNetSound` | native/Sources/MacOCRNative/OutboundConnector.swift:161-189 | a request is in one place only: under way, in its slot, refused or done, always along its stored route |
| `Protocol.StepKeepsLeaseSafe` | proxy/internal/repository/postgres/document.go:415-563 | while an attempt's lease lasts, no transaction but handing back that very attempt lets its document move on to another |
| `Protocol.SystemSoundInEveryRun` | proxy/internal/scheduler/scheduler.go:103-219 | the joint invariant of scheduler, hub, network, Macs and database holds after every run of the protocol |
| `Protocol.SingleExecutorPerLease` | proxy/internal/scheduler/scheduler.go:163-216 | two requests for one document in Macs' hands or on their way are the same request, or the earlier claim's lease has passed |
| `Protocol.EarlyRequeueMeansNobodyHasIt` | proxy/internal/scheduler/scheduler.go:201-216 | a document returns to the queue before its lease ends only if no Mac has the request or can still get it |
| `Protocol.CoverKept` | proxy/internal/native/workers.go:425-548 | no reserve, release, completion, reconnect or pruning takes away the reservation of an attempt still in hand |
| `Protocol.HubCoversMacs` | proxy/internal/native/workers.go:187-199 | while its lease lasts, an attempt holding a slot has exactly one reservation in the whole hub, on the session of its node, across ack, nack, lost ack, early callback and reconnect |
| `Tightness.CycleRuns` | proxy/internal/scheduler/scheduler.go:119-199 | from any state in which a worker can be reserved and a document claimed for it, the six moves to an accepted request are a valid continuation |
| `Tightness.LeaseBoundIsTight` | proxy/internal/scheduler/scheduler.go:210-216 | the bound on executors is exact: there is a run with two requests for one document in slots at the moment the first lease ends |
| `EventStream.EventIdsSortByTime` | proxy/internal/notifications/service.go:179-183 | identifiers of different times order as text exactly as the times of minting do |
| `EventStream.EventIdFormat` | proxy/internal/notifications/service.go:179-183 | twenty digits of time between the prefix and the random suffix |
| `EventStream.ListSse` | proxy/internal/repository/postgres/notification.go:85-108 | returns the first page of the rows after the cursor |
| `EventStream.WritePage` | proxy/internal/rest/notification.go:55-58 | prints every row of a page and leaves the cursor on the last |
| `EventStream.Events` | proxy/internal/rest/notification.go:38-72 | writes the retry hint, then every page and heartbeat of its turns, moving the cursor with each event |
| `EventStream.HandlerSends` | proxy/internal/rest/notification.go:47-71 | over any number of turns, each seeing any of the rows, what is sent is in order, without repetition, and exactly the rows the cursor passed in a turn that saw them |
| `EventStream.HandlerSendsInOrder` | proxy/internal/rest/notification.go:47-71 | what was sent followed by what comes after the cursor is the listing it started from if and only if no passed row was overtaken |
| `EventStream.OvertakenExactly` | proxy/internal/notifications/service.go:47-50 | a row visible from turn k on is overtaken if and only if the cursor had reached its identifier before turn k |
| `EventStream.InOrderCommitsAreNotOvertaken` | proxy/internal/repository/postgres/notification.go:85-92 | where rows become visible in the order of their identifiers none is overtaken |
| `EventStream.LateCommitIsOvertaken` | proxy/internal/repository/postgres/notification.go:85-92 | two rows, the earlier identifier committed second: only the later one is ever sent |
| `EventStream.ReadBytes` | omniscan/ocr/client.go:314-320 | returns the next complete line, or reports that only an unfinished one is left |
| `EventStream.Listen` | omniscan/ocr/client.go:311-360 | the read loop moves the cursor as the parser function does on the bytes received, and passes on exactly the parsed events that name a document |
| `EventStream.ParseOfPrint` | omniscan/ocr/client.go:311-360 | parsing any printed sequence of events, heartbeats and hints gives back exactly the events in order |
| `EventStream.WireFormat` | proxy/internal/rest/notification.go:55-58 | the lines written for an event, a heartbeat and the hint |
| `EventStream.DataLinesJoin` | omniscan/ocr/client.go:349-357 | several data lines are one payload with line breaks |
| `EventStream.ParseOfCut` | omniscan/ocr/client.go:311-360 | for a cut at any character: the complete events, and a cursor that is one ahead exactly if the cut is between an id line and its blank line |
| `EventStream.ResumeAfter` | proxy/internal/repository/postgres/notification.go:85-92 | resuming from the n-th row of a listing gives the rest of it |
| `EventStream.ScanNoticesNeverArrive` | proxy/internal/notifications/service.go:52-65 | a notice built for a scan is never passed on, whatever the connections |
| `EventStream.ArrivesExactly` | omniscan/ocr/client.go:278-360 | over any connections cut anywhere, events are passed on in order and none twice, and a row the client's cursor has passed is among them if and only if it was not overtaken, not cut between its id line and its blank line, and names a document |
| `EventStream.EveryEventOnceExactly` | omniscan/ocr/client.go:278-360 | so every row is delivered once and in order if and only if none of those three happened to a row the cursor passed |
| `HttpReader.FrameHeaders` | native/Sources/MacOCRNative/Server.swift:449-465 | the header loop stops at any transfer encoding and at a second or unreadable length |
| `HttpReader.Examine` | native/Sources/MacOCRNative/Server.swift:435-475 | the checks on the bytes so far decide as their function does, in source order |
| `HttpReader.ReadFullRequest` | native/Sources/MacOCRNative/Server.swift:427-484 | the recursive reader's outcome is that of its function |
| `HttpReader.DecisionStays` | native/Sources/MacOCRNative/Server.swift:435-475 | a decision, once reached, is not changed by further bytes within the limit |
| `HttpReader.ChunkIndependence` | native/Sources/MacOCRNative/Server.swift:427-484 | for every split of a stream within the size limit the reader does what a one-shot parse does (message framing of section 6 of RFC 9112, Content-Length only) |
| `HttpReader.ChunkIndependenceExactly` | native/Sources/MacOCRNative/Server.swift:427-438 | for any stream and all its splits into receives of at most 65536 bytes, if and only if it is within the limit or its first bytes up to the limit decide nothing else |
| `HttpReader.RequestRoundTrip` | native/Sources/MacOCRNative/Server.swift:440-475 | a request printed with its Content-Length is dispatched with its headers and body, in any chunks and followed by anything |
| `HttpReader.FramingAnswers` | native/Sources/MacOCRNative/Server.swift:449-465 | the header loop accepts with length n if and only if no line names a transfer encoding, at most one a length, and it is n or there is none and n is zero; otherwise the first refused line decides |
| `HttpReader.DispatchedExactly` | native/Sources/MacOCRNative/Server.swift:435-475 | a request is dispatched if and only if its headers end within the limit, ask for such a length of at most 1 MiB, and that many bytes have arrived; then with that body |
| `HttpReader.RefusedExactly` | native/Sources/MacOCRNative/Server.swift:449-470 | and when it is answered for a transfer encoding, a bad length, a size, or not yet |
| `HttpReader.UnheadedAnswers` | native/Sources/MacOCRNative/Server.swift:435-445 | too many bytes, unfinished headers, and headers that end too late |
| `HttpReader.ReaderDispatches` | native/Sources/MacOCRNative/Server.swift:427-484 | whatever arrives in whatever pieces, what the reader dispatches has acceptable headers and the body they ask for |
| `HttpReader.NamesInAnyCase` | native/Sources/MacOCRNative/Server.swift:452-458 | the two headers are recognised in any mixture of cases |
| `EditDistance.EditDistance` | scripts/ocr_eval.py:78-93 | the rolling-row loop with the length swap returns the recursive distance |
| `EditDistance.NextRow` | scripts/ocr_eval.py:83-91 | from one row of the distance table the inner loop computes the next |
| `EditDistance.Symmetric` | scripts/ocr_eval.py:78-80 | the distance is symmetric, which the swap relies on |
| `EditDistance.ZeroExactlyWhenEqual` | scripts/ocr_eval.py:78-93 | it is zero if and only if the sequences are equal |
| `EditDistance.Triangle` | scripts/ocr_eval.py:78-93 | it satisfies the triangle inequality |
| `EditDistance.EveryScriptCostsAtLeast` | scripts/ocr_eval.py:78-93 | no edit script between the sequences is cheaper |
| `EditDistance.SomeScriptCostsExactly` | scripts/ocr_eval.py:78-93 | and one costs exactly that much |
| `EditDistance.WordErrorRate` | scripts/ocr_eval.py:96-103 | the word error rate is in [0, 1], and zero if and only if the actual words start with the expected ones |
| `EditDistance.CharacterRateWithinOneExactly` | scripts/ocr_eval.py:102-102 | for given lengths the character error rate never exceeds one if and only if the compared text is no longer than the expected one, or than one character |
| `PageText.SplitPagesLoop` | proxy/internal/pdfinspector/processor.go:58-76 | the loop fills the pages as the function over the parts does, later markers overwriting earlier ones |
| `PageText.SplitUndoesPrint` | proxy/internal/pdfinspector/processor.go:58-76 | printing unmarked pages with numbered markers and splitting gives the pages back |
| `PageText.KeptAreNonBlank` | proxy/internal/pdfinspector/processor.go:43-50 | kept pages are non-blank, trimmed, under their own strictly increasing numbers |
| `PageText.NonBlankAreKept` | proxy/internal/pdfinspector/processor.go:43-50 | and every non-blank page is kept |
| `PageText.ToOcrResult` | proxy/internal/pdfinspector/processor.go:35-56 | the conversion's pages and joined text, with the fallback to one page |
| `PageText.ResultOfPrintedPages` | proxy/internal/pdfinspector/processor.go:35-56 | from a printed document exactly the non-blank pages come out, though it is trimmed first |
| `Layout.BeforeIsStrictWeakOrder` | omniscan/ocr/layout.go:85-90 | where nearness is transitive the comparator is a strict weak order |
| `Layout.ComparatorCyclesExactly` | omniscan/ocr/layout.go:85-90 | three heights admit positions on which the comparator cycles if and only if nearness is not transitive among them |
| `Layout.ComparatorCycleExample` | omniscan/ocr/layout.go:85-90 | three blocks it runs around |
| `Layout.GroupRows` | omniscan/ocr/layout.go:92-107 | the grouping loop equals its function |
| `Layout.PositionBlocks` | omniscan/ocr/layout.go:71-82 | the non-blank blocks in order, with clamped top coordinates |
| `Layout.BuildRows` | omniscan/ocr/layout.go:109-131 | sorts each row and builds its line |
| `Layout.BuildLine` | omniscan/ocr/layout.go:115-130 | joins a row with a tab across a wide gap and a space otherwise |
| `Layout.GroupKeepsItems` | omniscan/ocr/layout.go:92-107 | for every order of the items each lands in exactly one row, within tolerance of the item that opened it |
| `Layout.GroupDescends` | omniscan/ocr/layout.go:84-107 | with transitive nearness the rows are the classes of near items from top to bottom |
| `Layout.ReadingOrder` | omniscan/ocr/layout.go:84-113 | then the output is row-major reading order, whichever sorts the library uses |
| `Layout.ReconstructPage` | omniscan/ocr/layout.go:59-134 | for any page sort the non-blank blocks are rearranged into left-sorted rows within tolerance, and the text is their lines; in reading order if nearness is transitive on the page |
| `Layout.BlocksInReadingOrder` | omniscan/ocr/layout.go:77-113 | on the blocks' boxes: a block whose upper edge is more than the tolerance higher is in an earlier row, blocks of one height share a row, and a row reads by rising left edges |
| `Layout.ShownInRows` | omniscan/ocr/layout.go:71-82 | the rows show exactly the non-blank blocks, each as far below the top of the page as its upper edge |
| `Layout.UpperBlockFirst` | omniscan/ocr/layout.go:59-134 | of two blocks in either order the upper one's text comes first |
| `Layout.LineBetweenBlocks` | omniscan/ocr/layout.go:115-130 | between neighbours a tab if the gap between their boxes exceeds a fiftieth of the page, and a space otherwise |
| `Layout.ReconstructLayout` | omniscan/ocr/layout.go:36-56 | the pages' texts joined by page breaks, with the fallbacks to the server's text for a page or a result without structure |

## Left out

- SQL, Redis, S3, WebSocket, HTTP transport, JSON, cryptography, Vision, PDF and image libraries: only success, failure and unknown outcomes appear.
- A claim and the read-back that returns the row are one step; a commit whose outcome the caller never learns is not modelled.
- `Create`, `CreateMany`, `UpdateStatus`, `Cancel` without refund, `ReserveDocs` and `RefundDocs`: no submission or lifecycle path uses them and they bypass the ledger.
- Quota changes by an administrator and deletion of users: the quota is fixed between changes.
- Columns that no guard reads: hashes, processing options other than the mode, webhook targets and secrets, stored payloads.
- Delivery of webhook notifications, removal of expired result objects, and the loops and tickers that drive the scheduler and the retention worker: their bodies are steps or methods here.
- The text extraction branch of a scheduler turn is a claim step and a release or finalization step of `Lifecycle`; `Scheduling` covers the dispatching branch.
- A restart of the hub loses its reservations; the protocol theorems are about runs in which it stays up. Direct HTTP dispatch without the hub is not part of the protocol.
- `Hub` does not keep the admin's control actions, names or metadata; in `Protocol` any change of a session that keeps its identity, selection time and reservations may happen at any moment.
- Acknowledgements from a replaced socket are ignored by the hub; `Protocol` also lets them be heard, which only adds runs.
- The webhook handler's guards are the function `Outcomes.CallbackReply`; signatures, body limits and result storage before the finalization are not modelled.
- Media types are compared after lower-casing, which happens before the model; sizes, sequence and version numbers are unbounded integers.
- Event identifiers compare by code unit, as under the C collation. JSON is a parameter: whether a payload names a document, with the fields of a notice as the only assumption about it.
- Rows that a claim query skips because another transaction has them locked: a transaction is one step, so nothing is locked between steps.
- UTF-8 decoding of request headers is a parameter; routing and responses after the reader's decision are not part of this model.
- `evaluate` beyond the two error rates (Unicode normalization, phrase coverage, rounding to four digits).
- Layout uses exact reals, so floating-point rounding at the tolerance is not modelled; statistics and formatting would add easy members.
- OmniScan quota stores, deduplication and sessions, the admin and menu bar interfaces, enrollment and login throttling would add only easy members.
