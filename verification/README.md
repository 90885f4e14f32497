# Model of the evaluation service's protocols and arithmetic

The repository evaluates students' prompts against a remote language model. Requests to that
model are the scarce thing: one that was sent may still be running after its caller is gone.
This project models the code that guards them, the transactional stores around it, and the
exact arithmetic of scoring and measurement, and proves what they are for. Verify
with `dafny verify dfyconfig.toml`.

Code that changes state step by step is a class whose methods are proved against a
specification function of the old state (`AfterBegin`, `Succeed`, `Throttle`, `Change`, ...);
protocols over those operations are runs of events, and the results are about all runs. The
modules named after answers and meanings say of each operation, in terms of the rows, records
and lists it works on, when it does what.

| files | subject |
|---|---|
| `BoundedLedger`, `LedgerRuns`, `LedgerAnswers` | the write-ahead request ledger with several slots, its runs with crashes, restarts and failing writes, and what each operation answers in them |
| `SerialLedger`, `SerialRuns`, `SlotAnswers` | the same for the one-slot ledger |
| `ProviderLatch`, `GuardedCalls` | the race between a caller's deadline and its request thread; the guarded calls of a process over its providers |
| `RelayBudget` | the relay's durable request budget |
| `SubmissionStore`, `SubmissionQuotas`, `LeaseFencing`, `SubmissionAnswers` | submissions, leases, quotas and the outbox |
| `Leaderboard`, `History`, `CursorCodec` | ranked and keyset paging over a changing store, and the cursors |
| `AuthStore`, `Throttling`, `Credentials`, `Accounts` | accounts, sessions, one-time tokens and throttling |
| `AdminStore`, `AdminContent` | revisioned teaching content, its audit rows and the admission fence |
| `Selection`, `GoldPipeline` | reservoir selection; agreement of builder, validator, model input and scorer |
| `Evaluation`, `ScoreMeaning`, `Aggregation`, `AggregateMeaning` | the scorers and the micro-averages, over exact rationals, and what they count |
| `KernelTrace`, `Measurement`, `BudgetReport`, `BatchMeaning` | the interval sweep, the concurrent batch, its report and the second judgement of it |
| `Basics`, `Sorting` | shared vocabulary: sets of integers, distinct sequences, sorting |

## How the model reads the code

- Ledgers: a process has volatile flags, a directory is durable. A write either succeeds or
  raises, leaving the old or the new document. A restart loses the flags, the calls and the
  request threads. A run interleaves the ledger with the providers themselves: each guarded
  call is a call of one `ProviderLatch` world, its thread and caller move by that model's steps,
  and whether it finishes or blocks is decided by what the call reports and by the latch at
  that moment. Outstanding is what was sent and is unanswered, in this process or one that
  died, and is not covered by accepted evidence.
- Stores: a transaction is one atomic step at the database's clock. A store's own clock never
  runs backwards. Identifiers, digests and one-time tokens are numbers, compared only.
- A uniqueness violation rolls the transaction back and is an outcome of its own.
- Text written by the standard JSON and Unicode libraries goes through functions that are
  parameters; the only law used of the JSON pair is that loading what was dumped gives it back.

## Where the code does not keep the simple form of a property

- `providers.py` catches `Exception` in the request thread. An exception outside it leaves no
  recorded error, so the latch is cleared over an unanswered request and the guarded provider
  may finish the operation (`ProviderLatch.EscapeOpensLatch`), which loses its record
  (`LedgerRuns.EscapedFinishLosesRecord`). The latch and the ledgers keep their promise exactly
  as long as that has not happened (`LatchGuardsUnanswered`, `WriteAheadSafetyIff`).
- A `ProviderTimeoutError` is not a `ProviderRequestError`, so the guarded provider blocks the
  ledger on every timeout, a confirmed one included (`ProviderLatch.TimeoutsNeverFinish`).
- The serial `recover` does not look for live calls: emptying the slot is safe exactly when no
  request is still to be sent (`SerialRuns.RecoverySafeIff`), and a run with one loses the slot
  (`LiveRecoveryLosesSlot`). Its `begin` takes an empty challenge name that the reader then
  rejects (`BeginReadableIff`, `EmptyNameIsUnreadable`).
- The advertised `retry_after` ends at an instant that still counts the oldest submission
  exactly when a whole number of seconds was left (`SubmissionQuotas.RetryAfterFreesIff`,
  `WholeSecondsStillRefused`). The contract reader takes any whole number as a limit; under a
  daily limit of 0 or less and nothing counted there is no oldest submission to date the retry
  from: the source raises `TypeError`, here the outcome `Crashed` (`CrashesIffNothingToDate`,
  `NoAllowanceCrashes`).
- With `max_attempts` 0 or less a submission still changes status once, by its deadline
  (`ZeroAttemptsStillExpire`).
- A throttling limit below 1 still lets the first attempt of a window through
  (`LimitZeroLetsOneThrough`), so the proved bound is twice the limit with 1 as its least value,
  which is reached (`TwiceTheLimitIsReached`).
- History paging can show a row that was not there at page one, exactly when it was created in
  the microsecond of the cursor under a smaller identifier (`HistoryPagingIsLosslessIff`,
  `TieIntrudes`).
- A cursor with a character outside ASCII makes the base64 decoder raise a plain `ValueError`
  that the decoders do not catch: the outcome `Crashed`, for exactly such text
  (`CursorCodec.AcceptedIff`, `NonAsciiCrashes`).
- The second judgement counts like the batch exactly when every position from 1 to the number
  of cases occurs among the cases (`BudgetReport.JudgementsAgreeIff`). The batch takes any
  positions; those of `prepare_cases` do (src/linguistic_oj/qwen_performance.py:86-106,
  `PreparedPositionsCover`). Where one is missing, a batch that is met is assessed as not met
  (`MissingPositionIsMiscounted`, `RepeatedPositionIsMiscounted`).

## Model

| member | source | states |
|---|---|---|
| `BoundedLedger.BoundedExecutorState.Begin` | src/linguistic_oj/bounded_executor_state.py:165-181 | the new volatile and durable state and the result for every input, refusal order and every way the write can end: the record is on disk before the operation is handed out, a full ledger or a closed gate writes nothing |
| `BoundedLedger.BoundedExecutorState.Finish` | src/linguistic_oj/bounded_executor_state.py:183-197 | the whole new state: unknown ownership poisons and raises, after an incident only the live entry goes and the record stays as evidence, otherwise the record is removed by one write that may fail either way |
| `BoundedLedger.BoundedExecutorState.Block` | src/linguistic_oj/bounded_executor_state.py:199-207 | poison and fault come first, even when the file cannot be read; the blocked flag is written only for an owned record |
| `BoundedLedger.BoundedExecutorState.RecoverAll` | src/linguistic_oj/bounded_executor_state.py:209-248 | the whole new state: live calls, a changed pending set or incomplete evidence refuse; the audit is filed before the state is rewritten; flags clear only after that write succeeded |
| `BoundedLedger.BoundedExecutorState.RequireDispatchable` | src/linguistic_oj/bounded_executor_state.py:144-150 | passes exactly when no flag is set, the file is readable and unblocked and its pending keys are the live operations; otherwise raises the fault |
| `BoundedLedger.BoundedExecutorState.WriteState` | src/linguistic_oj/bounded_executor_state.py:134-142 | poisoned while the outcome of the write is unknown; a failed write leaves the old or the new document and sets both flags |
| `BoundedLedger.BoundedExecutorState.Snapshot` | src/linguistic_oj/bounded_executor_state.py:121-132 | an unreadable file or a changed binding or capacity raises and sets the fault |
| `LedgerRuns.WriteAheadSafetyIff` | src/linguistic_oj/bounded_executor_state.py:134-283 | over every run of guarded callers, request threads, providers, crashes, restarts and recoveries with writes failing either way: everything sent and not known to have ended is a durable pending key, and at most the configured number are outstanding, in exactly the runs where no finish removes the record of a call whose thread was left by an exception outside Exception |
| `LedgerRuns.LostRecords` | src/linguistic_oj/bounded_executor_state.py:134-283 | over every run, what is outstanding without a record is exactly what such finishes removed |
| `LedgerRuns.EscapedFinishLosesRecord` | src/linguistic_oj/bounded_executor_state.py:265-283 | such a run exists: one begin, one request whose thread escapes, one finish |
| `GuardedCalls.StepShrinks` | src/linguistic_oj/providers.py:739-797 | a step of a provider lets nothing new be sent, and only a request that could be sent becomes unanswered |
| `GuardedCalls.SendableIsSent` | src/linguistic_oj/providers.py:739-797 | conversely, a request counted as still to be sent has a run of its provider that ends with it at the model, unanswered |
| `GuardedCalls.FinishedIsOverIff` | src/linguistic_oj/bounded_executor_state.py:265-283 | an operation the guarded provider has decided to finish is not sent any more, and is unanswered exactly if its thread escaped |
| `GuardedCalls.DecisionIff` | src/linguistic_oj/bounded_executor_state.py:265-283 | the guarded provider finishes exactly when the latch is clear and the call came back by itself, not made at all or with its thread ended otherwise than by losing the transport |
| `LedgerRuns.CapacityIsFixed` | src/linguistic_oj/bounded_executor_state.py:91-103 | no step changes the durable capacity |
| `LedgerRuns.FilesAlwaysReadable` | src/linguistic_oj/bounded_executor_state.py:52-87 | the reader accepts the files that every crash point leaves, size limits aside, so a restart can start |
| `LedgerRuns.GateIsExact` | src/linguistic_oj/bounded_executor_state.py:144-181 | in every reachable world begin succeeds exactly when the record is valid, the file readable, no fault set, a slot free and the write succeeds; and then every pending record before it was owned by a live call of this process |
| `LedgerRuns.FaultShutsGate` | src/linguistic_oj/bounded_executor_state.py:144-150 | after a fault, in one process and without a completed recovery, no begin ever succeeds |
| `LedgerRuns.IncidentsFault` | src/linguistic_oj/bounded_executor_state.py:91-207 | refused dispatch checks, failed or refused begins other than for their argument or a full ledger, unreadable files, blocks, unexpected or failed completions and restarts over pending or blocked state all set the fault |
| `LedgerRuns.AuditBeforeClearing` | src/linguistic_oj/bounded_executor_state.py:183-248 | a record leaves pending only by its own finish, with nothing more to be sent and the request answered unless its thread escaped, or by a recovery whose audit covers the whole pending set and was on disk before the state write |
| `LedgerRuns.AuditsAreForever` | src/linguistic_oj/bounded_executor_state.py:235-244 | a filed audit is never replaced or removed over any run |
| `LedgerRuns.RecoveryResumes` | src/linguistic_oj/bounded_executor_state.py:235-248 | a recovery interrupted after filing completes with the same evidence and with no other, and then opens the gate |
| `LedgerRuns.RunKeepsInv` | src/linguistic_oj/bounded_executor_state.py:134-248 | the invariant behind these results, kept by every step of every run |
| `LedgerAnswers.IncidentSettlesNothing` | src/linguistic_oj/bounded_executor_state.py:190-207 | a call settled at a fault, a poisoned process or a blocked file removes no record, and a finish then leaves the whole document as it was |
| `LedgerAnswers.IncidentKeepsRecords` | src/linguistic_oj/bounded_executor_state.py:190-248 | once a process is at fault every record stays, over finishes, crashes and restarts, until evidence is accepted, and that evidence names each of them |
| `LedgerAnswers.BlockedUntilEvidence` | src/linguistic_oj/bounded_executor_state.py:199-248 | a blocked file stays blocked and no begin succeeds on it, over crashes and restarts, until evidence is accepted |
| `LedgerAnswers.RecordsAreThoseBegun` | src/linguistic_oj/bounded_executor_state.py:165-181 | over every run a record on disk is the one its operation was begun with |
| `LedgerAnswers.BeginAnswers` | src/linguistic_oj/bounded_executor_state.py:144-181 | in a reachable world the refusal depends on the record, the file, the fault and the capacity alone, and a begin that succeeds adds its record and its live entry and nothing else |
| `LedgerAnswers.FinishAnswers` | src/linguistic_oj/bounded_executor_state.py:183-197 | in a reachable world a finish removes exactly its own record, and only for an owned operation without an incident; every refusal sets the fault |
| `LedgerAnswers.BlockAnswers` | src/linguistic_oj/bounded_executor_state.py:199-207 | a block always leaves poison and fault, and marks the file exactly for an owned operation whose write landed |
| `LedgerAnswers.RecoveryCompletesIff` | src/linguistic_oj/bounded_executor_state.py:209-248 | a recovery completes exactly without live calls, for the expected pending set, with terminated evidence that names each operation once in order, a confirmer and a reference, no other audit on file and writes that succeed; then the whole document and process are stated |
| `LedgerAnswers.ForeignFileRefuses` | src/linguistic_oj/bounded_executor_state.py:121-132 | a file that cannot be read or has another binding or capacity refuses every operation, is not written, and sets the fault |
| `LedgerAnswers.DocumentFrame` | src/linguistic_oj/bounded_executor_state.py:134-248 | the binding never changes, the last recovery only by a recovery, and the blocked mark is set by a block and cleared by a recovery only |
| `LedgerAnswers.AnsweredCallFreesItsSlot` | src/linguistic_oj/bounded_executor_state.py:262-283 | an answered call in a process without an incident, with the latch clear, is finished and gives back its slot and no other |
| `SerialLedger.ExecutorState.Begin` | src/linguistic_oj/executor_state.py:175-192 | the whole new state of the one-slot ledger; any failed write leaves the process poisoned |
| `SerialLedger.ExecutorState.Finish` | src/linguistic_oj/executor_state.py:194-201 | the slot is cleared only for its own operation; a mismatch or a failed write poisons |
| `SerialLedger.ExecutorState.Recover` | src/linguistic_oj/executor_state.py:203-243 | evidence must match the slot, the audit is filed first and a different one is refused |
| `SerialRuns.WriteAheadSafetyIff` | src/linguistic_oj/executor_state.py:175-268 | over every run whose recoveries empty the slot only with no request still to be sent: what was sent and has not ended is the operation in the durable slot, in exactly the runs where no finish empties the slot of a call whose thread escaped |
| `SerialRuns.RecoverySafeIff` | src/linguistic_oj/executor_state.py:203-243 | recover does not look for live calls: after any recovery, refused, failed or completed, the slot stays truthful under everything the providers may still do exactly if the recovery left the slot as it was or no request was still to be sent |
| `SerialRuns.LiveRecoveryLosesSlot` | src/linguistic_oj/executor_state.py:203-268 | the other case occurs: a run with a begin, a recovery and then the send, which leaves the slot empty under an unanswered request |
| `SerialRuns.BeginReadableIff` | src/linguistic_oj/executor_state.py:179-192 | begin takes any challenge name; the file it writes is one the reader accepts exactly when the name is not empty |
| `SerialRuns.EmptyNameIsUnreadable` | src/linguistic_oj/executor_state.py:179-192 | the other case occurs: from a fresh ledger a begin with an empty name succeeds and leaves a file the reader rejects |
| `SlotAnswers.BeginAnswers` | src/linguistic_oj/executor_state.py:175-192 | in a reachable world a begin is handed out exactly into an empty readable slot of a process that is not poisoned, and the slot then holds it as given |
| `SlotAnswers.FinishAnswers` | src/linguistic_oj/executor_state.py:194-201 | a finish empties the slot exactly of its own operation; a mismatch and a failed write poison |
| `SlotAnswers.RecoveryCompletesIff` | src/linguistic_oj/executor_state.py:203-243 | a recovery completes exactly for the operation in the slot with matching, terminated evidence, no other audit on file and writes that succeed; then the whole document is stated |
| `SlotAnswers.PoisonShutsGate` | src/linguistic_oj/executor_state.py:175-192 | after a failed write no begin succeeds in that process until the operation in the slot is finished or recovered |
| `SlotAnswers.SlotIsAsBegun` | src/linguistic_oj/executor_state.py:183-192 | over every run the slot holds an operation as its begin was given it |
| `SlotAnswers.AuditBeforeClearing` | src/linguistic_oj/executor_state.py:194-243 | the slot is emptied only by a finish of its own operation, over unless its thread escaped, or by a recovery whose audit was on disk before that write |
| `SlotAnswers.AuditsAreForever` | src/linguistic_oj/executor_state.py:221-236 | a filed audit is never replaced or removed over any run |
| `ProviderLatch.ConfirmedMeansNeverSent` | src/linguistic_oj/providers.py:754-797 | in every interleaving of caller and request thread, after a timeout reported as confirmed the request is not sent and never will be |
| `ProviderLatch.EarlyExpiryIsConfirmed` | src/linguistic_oj/providers.py:754-797 | a deadline that passes before the thread looks a second time ends in a confirmed timeout in every continuation |
| `ProviderLatch.LateLookNeverSends` | src/linguistic_oj/providers.py:754-770 | a thread that looks and finds its deadline past, by the clock or by the caller, gives up at that look and never sends |
| `ProviderLatch.AnnouncedIsUnconfirmed` | src/linguistic_oj/providers.py:754-797 | once the request is announced no later timeout is confirmed |
| `ProviderLatch.LatchGuardsUnanswered` | src/linguistic_oj/providers.py:739-797 | the latch holds the token of every unanswered request exactly as long as no request thread was left by an exception outside Exception |
| `ProviderLatch.NoOverlap` | src/linguistic_oj/providers.py:739-797 | under that condition two requests of one provider are never unanswered together |
| `ProviderLatch.ClearLatchIsFinal` | src/linguistic_oj/providers.py:754-797 | a call that does not hold the latch sends nothing any more |
| `ProviderLatch.FinishIsSafeIff` | src/linguistic_oj/bounded_executor_state.py:265-283 | when the guarded provider finishes an operation, its request is answered or was never sent, now and in every continuation, exactly if its thread was not left by an exception outside Exception |
| `ProviderLatch.ReportsIff` | src/linguistic_oj/providers.py:782-797 | a call reports something exactly once its caller has left it or timed out |
| `ProviderLatch.TimeoutsNeverFinish` | src/linguistic_oj/providers.py:257-268 | a timeout never lets the guarded provider finish, even a confirmed one whose request was not and will not be sent |
| `ProviderLatch.EscapeOpensLatch` | src/linguistic_oj/providers.py:771-781 | the exception to it: a run in which such an exception opens the latch over an unanswered request and the operation is finished |
| `RelayBudget.Budget.Begin` | scripts/acceptance_model_relay.py:60-78 | the whole new state and file: refused without change when faulted, exhausted or not admitted; else the ordinal is reserved by a write that may fail either way and then faults |
| `RelayBudget.Budget.Finish` | scripts/acceptance_model_relay.py:80-89 | the in-flight ordinal moves to the completed list with its digest, in memory and by one write |
| `RelayBudget.Budget.Block` | scripts/acceptance_model_relay.py:91-95 | faulted and blocked in memory whatever happens to the write |
| `RelayBudget.BudgetNeverExceeded` | scripts/acceptance_model_relay.py:29-95 | over any steps, crashes, restarts and failed writes on one directory at most maximum requests are forwarded |
| `RelayBudget.OrdinalsSplit` | scripts/acceptance_model_relay.py:60-95 | in every reachable file and process the ordinals 1 to started split exactly into completed and in flight |
| `RelayBudget.RestartOnlyAfterAllFinished` | scripts/acceptance_model_relay.py:42-58 | a restart is accepted only if every request forwarded before had its answer, and all are recorded as completed |
| `RelayBudget.QuietDirectoryRestarts` | scripts/acceptance_model_relay.py:42-58 | conversely, a directory with nothing in flight and not blocked does restart |
| `RelayBudget.FileTellsWhatHappened` | scripts/acceptance_model_relay.py:60-89 | over every run the file has for each request in flight the digest it was reserved for, and for each completed one that and the status and response it ended with |
| `RelayBudget.OrdinalHandedOutIff` | scripts/acceptance_model_relay.py:60-78 | a handler gets an ordinal exactly when its request is admitted within the budget of a process without fault and the write succeeds, and it is the next one |
| `RelayBudget.BlockStops` | scripts/acceptance_model_relay.py:91-95 | a block leaves its request in flight on file and its process at fault, however the write ended, and the file blocked if it landed |
| `RelayBudget.BlockIsFinal` | scripts/acceptance_model_relay.py:42-95 | from then on no process starts on the directory, and nothing is forwarded but by handlers that already had their ordinal |
| `SubmissionStore.PostgresSubmissionStore.CreateSubmission` | src/linguistic_oj/postgres_submission_store.py:137-283 | the new tables and answer for every input: replay and conflict first, then pause, daily window, outstanding limits, and one row with its outbox row |
| `SubmissionStore.PostgresSubmissionStore.ClaimSubmission` | src/linguistic_oj/postgres_submission_store.py:384-466 | the new tables and answer: wrong identity, running, spent, late and over-quota rows give no claim; a lease never outlasts the deadline |
| `SubmissionStore.PostgresSubmissionStore.CompleteSuccess` | src/linguistic_oj/postgres_submission_store.py:468-517 | commits only for the current attempt and token inside lease and deadline; row and result change together |
| `SubmissionStore.PostgresSubmissionStore.RetrySubmission` | src/linguistic_oj/postgres_submission_store.py:519-550 | requeues only a current claim with attempts left inside lease and deadline |
| `SubmissionStore.PostgresSubmissionStore.CompleteFailure` | src/linguistic_oj/postgres_submission_store.py:552-594 | an expired lease refuses unless the deadline has passed too, in which case the deadline is the recorded failure |
| `SubmissionStore.PostgresSubmissionStore.CompleteRejected` | src/linguistic_oj/postgres_submission_store.py:596-634 | as failure, but rejected unless the deadline has passed |
| `SubmissionStore.PostgresSubmissionStore.ExpireAllLeases` | src/linguistic_oj/postgres_submission_store.py:352-367 | row by row: a running row of the evaluation with an expired lease fails, by its deadline if that has passed and as a worker crash otherwise, every other row is unchanged, and the answer is the number of rows changed |
| `LeaseFencing.ExpiryEndsStaleClaims` | src/linguistic_oj/postgres_submission_store.py:338-367 | expiring leases ends exactly the claims that are not current: every claim is current after it iff it was before, every row still running has a current holder, and repeating it changes nothing |
| `SubmissionStore.PostgresSubmissionStore.ExpireQueuedDeadlines` | src/linguistic_oj/postgres_submission_store.py:369-382 | row by row: a queued row of the evaluation past its deadline fails by it, every other row is unchanged, and the answer is the number of rows changed |
| `LeaseFencing.ClaimsMeetNoLateRow` | src/linguistic_oj/postgres_submission_store.py:369-425 | after it no claim of the evaluation meets a late row: a claim at that instant changes the table exactly if it gets a lease |
| `SubmissionQuotas.QuotasHold` | src/linguistic_oj/postgres_submission_store.py:155-270 | in every reachable state under fixed limits: running and outstanding per user, outstanding in all, and each closed day per user and challenge stay within their limits, or at 0 under a negative limit; identifiers and idempotency keys are unique |
| `SubmissionQuotas.RunKeepsInv` | src/linguistic_oj/postgres_submission_store.py:384-466 | that invariant over every run of all nine transactions |
| `SubmissionQuotas.ReplayAddsNothing` | src/linguistic_oj/postgres_submission_store.py:164-183 | after a creation, sending the same key again at any later time adds nothing: the first row is answered, or the conflict reported |
| `SubmissionQuotas.RetryAfterFreesIff` | src/linguistic_oj/postgres_submission_store.py:199-218 | strictly after the advertised wait fewer submissions are counted; at its very end exactly unless a whole number of seconds was left |
| `SubmissionQuotas.WholeSecondsStillRefused` | src/linguistic_oj/postgres_submission_store.py:199-218 | that case occurs: a reachable store that refuses again at the end of the wait it advertised |
| `SubmissionQuotas.CrashesIffNothingToDate` | src/linguistic_oj/postgres_submission_store.py:199-210 | creation raises TypeError exactly for a new key on an open task under a daily limit of 0 or less with nothing counted |
| `SubmissionQuotas.NoAllowanceCrashes` | src/linguistic_oj/postgres_submission_store.py:199-210 | that case occurs: the first submission to a fresh store, to an open task that allows none a day |
| `SubmissionQuotas.OriginsStay` | src/linguistic_oj/postgres_submission_store.py:254-283 | identity, owner, key, contract, creation time and deadline of a row never change |
| `SubmissionAnswers.CreationAnswers` | src/linguistic_oj/postgres_submission_store.py:155-283 | for every input: a known key is answered from its row; a new one is taken exactly when the task is open and the sets of rows of the day, unfinished ones of the user and of all leave room, else refused for the first reason with the numbers and the least wait in whole seconds |
| `SubmissionAnswers.KnownKeyAnswers` | src/linguistic_oj/postgres_submission_store.py:164-183 | a known key is answered with its row for the same request and refused for another |
| `SubmissionAnswers.CreationAdds` | src/linguistic_oj/postgres_submission_store.py:239-283 | a new submission stands last in the table and the outbox with what the request and contract gave, its deadline the contract seconds after its creation, and nothing of a run |
| `SubmissionAnswers.ClaimAnswers` | src/linguistic_oj/postgres_submission_store.py:395-436 | a claim is handed out exactly for a waiting row with attempts, time and room for its user, asks to come back exactly for a running one or one without room, fails a late row by its deadline, and changes nothing else |
| `SubmissionAnswers.ClaimLastsItsLease` | src/linguistic_oj/postgres_submission_store.py:338-466 | after a claim was handed out it, and no other of the submission, is current up to its lease or the deadline, whichever ends first |
| `SubmissionAnswers.ClaimCarriesItsRow` | src/linguistic_oj/postgres_submission_store.py:430-466 | the claim carries the user, deadline and next attempt of its row, which runs from then on |
| `SubmissionAnswers.RetryAnswers` | src/linguistic_oj/postgres_submission_store.py:519-550 | a row is requeued exactly by its holder inside lease and deadline with attempts left, without lease and start |
| `SubmissionAnswers.RetriedIsClaimable` | src/linguistic_oj/postgres_submission_store.py:384-550 | a retried row can be claimed again before its deadline, as the next attempt |
| `SubmissionAnswers.FailAnswers` | src/linguistic_oj/postgres_submission_store.py:552-594 | a row fails exactly by its holder under its failure contract while the lease runs or after the deadline, which is then the recorded failure |
| `SubmissionAnswers.RejectAnswers` | src/linguistic_oj/postgres_submission_store.py:596-634 | a row is rejected exactly by its holder while the lease runs; after the deadline it fails by it |
| `SubmissionAnswers.SuccessAnswers` | src/linguistic_oj/postgres_submission_store.py:468-517 | a success is recorded exactly by the holder inside lease and deadline, with its scores, identity and time |
| `SubmissionAnswers.PublishMovesOne` | src/linguistic_oj/postgres_submission_store.py:301-308 | publishing stamps exactly the one outbox row, once |
| `LeaseFencing.ResultsExactlyForSuccesses` | src/linguistic_oj/postgres_submission_store.py:468-517 | in every reachable state a result exists exactly for the succeeded rows and was written before the deadline |
| `LeaseFencing.StepRespectsFinality` | src/linguistic_oj/postgres_submission_store.py:468-634 | a step that adds a result held the current claim inside lease and deadline; results and terminal rows are never touched again |
| `LeaseFencing.TerminalIsForever` | src/linguistic_oj/postgres_submission_store.py:468-634 | terminal states are absorbing over every run |
| `LeaseFencing.ClaimsAreIssued` | src/linguistic_oj/postgres_submission_store.py:430-466 | a claim handed out carries the attempt of its row, one more than before |
| `LeaseFencing.StaleClaimsAreFenced` | src/linguistic_oj/postgres_submission_store.py:468-634 | a claim whose attempt is not current never becomes current again and can complete, retry, fail or reject nothing at any later time |
| `LeaseFencing.ClaimIsCurrentIffCommits` | src/linguistic_oj/postgres_submission_store.py:338-350 | for every issued claim the worker check and the commit of a success agree at any instant |
| `LeaseFencing.StatusChangesBounded` | src/linguistic_oj/postgres_submission_store.py:384-634 | a submission changes status at most twice per allowed attempt; with no attempts allowed, at most once |
| `LeaseFencing.ZeroAttemptsStillExpire` | src/linguistic_oj/postgres_submission_store.py:369-382 | that last case occurs: with no attempts allowed the deadline still changes the status once |
| `LeaseFencing.OutboxQueriesPartition` | src/linguistic_oj/postgres_submission_store.py:285-325 | each dispatcher query lists the queued submissions of an evaluation in its publication state, all of them, once each, in outbox order and nothing else; every queued one is in exactly one of the two |
| `Leaderboard.RankingIsTheLeaderboard` | src/linguistic_oj/postgres_submission_store.py:763-777 | over every reachable store the query lists each user with a result in time exactly once, with the preferred one, strictly ordered by score, time and handle |
| `Leaderboard.RankingIsUnique` | src/linguistic_oj/postgres_submission_store.py:763-777 | nothing else satisfies the query: two rankings of the same candidates are equal |
| `Leaderboard.LeadersAre` | src/linguistic_oj/postgres_submission_store.py:763-777 | over every reachable store, of its rows: each place shows a timely result, each timely result is no better than its user's place, and places are ordered by score down, then time, then handle |
| `Leaderboard.RunKeepsBoard` | src/linguistic_oj/postgres_submission_store.py:749-777 | no run whose results are stamped after the instant changes the ranking as of it |
| `Leaderboard.PageShows` | src/linguistic_oj/api.py:1328-1349 | reading one place more than shown gives the next limit places after a rank and a cursor exactly if more follow |
| `Leaderboard.LeaderboardPagingIsLossless` | src/linguistic_oj/api.py:1310-1349 | following cursors over a changing store: the pages are the top of the ranking as of page one with ranks from 1, all of it once no cursor comes, after at most n pages |
| `History.ListingIs` | src/linguistic_oj/postgres_submission_store.py:659-690 | the keyset query lists exactly the owner rows beyond the cursor, once each, newest first |
| `History.ListingShows` | src/linguistic_oj/postgres_submission_store.py:659-690 | of the rows: one item for each of the owner's rows, after a cursor those made before it or at its time under a smaller identifier, latest first and by identifier down |
| `History.RestOfListing` | src/linguistic_oj/postgres_submission_store.py:678-690 | what lies beyond a listed key is the rest of the list |
| `History.WalkReadsOn` | src/linguistic_oj/api.py:1087-1105 | undisturbed pages are the top of the list as of page one, and the missing cursor means that was all |
| `History.HistoryPagingIsLosslessIff` | src/linguistic_oj/postgres_submission_store.py:659-707 | a finished walk shows the list as of page one exactly when no row added before a later page has the creation time of that page's cursor and a smaller identifier |
| `History.TieIntrudes` | src/linguistic_oj/postgres_submission_store.py:678-690 | that case occurs: a reachable store in which a submission of the same microsecond appears on page two |
| `CursorCodec.Base64RoundTrip` | src/linguistic_oj/api.py:576-588 | every byte string comes back from its unpadded base64url text, with the padding the decoder adds |
| `CursorCodec.AlphabetIsTheStandard` | src/linguistic_oj/api.py:576-577 | the alphabet is that of section 5 of RFC 4648 |
| `CursorCodec.EncodesTheVectors` | src/linguistic_oj/api.py:576-577 | test vectors of section 10 of RFC 4648 for every length of the last group, without padding |
| `CursorCodec.HistoryCursorRoundTrip` | src/linguistic_oj/api.py:565-606 | a history cursor gives back its fields exactly when the time is a UTC timestamp and the identifier well formed, else it is invalid |
| `CursorCodec.LeaderboardCursorRoundTrip` | src/linguistic_oj/api.py:617-668 | a leaderboard cursor gives back its instant and rank exactly on its own leaderboard with a positive rank |
| `CursorCodec.DecodeHistoryCursor` | src/linguistic_oj/api.py:579-606 | decoding crashes exactly for text with a character outside ASCII, and whatever it accepts carries a UTC timestamp and a well-formed identifier |
| `CursorCodec.HistoryCursorAcceptedIff` | src/linguistic_oj/api.py:579-606 | a text is read as these fields exactly when it holds a JSON object of the three fields and no other, valid and with a version equal to 1 |
| `CursorCodec.VersionsThatEqualOne` | src/linguistic_oj/api.py:579-606 | a version of true or 1.0 is as good as 1, and no other value is |
| `CursorCodec.DecodeLeaderboardCursor` | src/linguistic_oj/api.py:636-668 | decoding crashes exactly for text with a character outside ASCII, and whatever it accepts carries a UTC timestamp and a positive rank |
| `CursorCodec.LeaderboardCursorAcceptedIff` | src/linguistic_oj/api.py:636-668 | a text is read as this place exactly when it holds a JSON object of the four fields and no other, valid, of this leaderboard and with a version equal to 1 |
| `CursorCodec.AcceptedIff` | src/linguistic_oj/api.py:583-590 | the base64 decoder takes exactly the ASCII text that, padded to a multiple of four, is alphabet characters with at most two of padding at the end |
| `CursorCodec.NonAsciiCrashes` | src/linguistic_oj/api.py:579-668 | one accented letter crashes both decoders |
| `CursorCodec.NoCursorStartsAtTop` | src/linguistic_oj/api.py:579-642 | without a cursor a history starts at its top and a leaderboard before rank 1 as of now |
| `AuthStore.AuthStoreMixin.AuthThrottle` | src/linguistic_oj/auth_store.py:131-152 | the whole new state: expired rows of three tables go, every bucket is checked before any is counted, a new bucket gets its expiry and an existing one keeps it |
| `AuthStore.AuthStoreMixin.AuthIssueAction` | src/linguistic_oj/auth_store.py:159-176 | the whole new state: an older token of the same email and purpose is replaced; a clash of token hashes rolls back |
| `AuthStore.AuthStoreMixin.AuthCompleteAction` | src/linguistic_oj/auth_store.py:206-228 | the whole new state: an account is added, or the password replaced with a higher version and all sessions ended; all tokens of the email go; a uniqueness clash rolls back |
| `AuthStore.AuthStoreMixin.AuthCreateSession` | src/linguistic_oj/auth_store.py:230-244 | a session is added only if version and password hash are still those read before; the replaced one goes |
| `AuthStore.AuthStoreMixin.AuthProvisionAccount` | src/linguistic_oj/auth_store.py:261-270 | an account is added only if the expected one is what is there |
| `Throttling.AtMostTwiceTheLimit` | src/linguistic_oj/auth_store.py:131-152 | in every run with a monotone clock and fixed limits any closed span of the window length holds at most twice the limit, counting a limit below one as one |
| `Throttling.TwiceTheLimitIsReached` | src/linguistic_oj/auth_store.py:131-152 | the bound is reached for every limit: the whole limit at once and again in the instant the window ends |
| `Throttling.LimitZeroLetsOneThrough` | src/linguistic_oj/auth_store.py:137-151 | the bound of twice the limit itself holds for a first attempt exactly when the limit is at least one |
| `Throttling.AcceptedIffRoom` | src/linguistic_oj/auth_store.py:137-143 | an attempt is accepted exactly when each of its buckets has room in its live window |
| `Throttling.RejectedChangesNothing` | src/linguistic_oj/auth_store.py:144-152 | a rejected attempt changes no live bucket's count or expiry and creates none |
| `Credentials.SessionsAreCurrent` | src/linguistic_oj/auth_store.py:230-255 | in every reachable state a session was minted under the version its account has now, and answers with that account |
| `Credentials.ResetEndsSessions` | src/linguistic_oj/auth_store.py:220-228 | using a live reset token ends every session of its account, raises the version by one, sets the password and uses the token up |
| `Credentials.ResetFencesEarlierLogins` | src/linguistic_oj/auth_store.py:206-244 | a login that read its account before a reset gets no session at any time after it; later sessions carry a newer version |
| `Credentials.OneTokenPerPurpose` | src/linguistic_oj/auth_store.py:167-175 | an email has at most one token per purpose in every reachable state |
| `Credentials.EachTokenCompletesOnce` | src/linguistic_oj/auth_store.py:206-228 | a token that completed completes nothing later, for any purpose, unless issued anew |
| `Credentials.VerifyNeverReplaces` | src/linguistic_oj/auth_store.py:187-219 | verifying an email that has an account conflicts and changes nothing |
| `Credentials.RunKeepsInv` | src/linguistic_oj/auth_store.py:131-278 | users, emails and handles stay unique, sessions have accounts and reset tokens belong to the account of their email, over every run |
| `Accounts.VerifyCreatesMember` | src/linguistic_oj/auth_store.py:188-228 | with a live verification token an account is created exactly when identifier, handle and email are free: an ordinary member with this password, every other account as before, the email's tokens gone; else nothing changes |
| `Accounts.AdministratorsAreAppointed` | src/linguistic_oj/auth_store.py:188-278 | in every run an account is an administrator's only by provisioning or a change of role |
| `Accounts.ResetChangesOneAccount` | src/linguistic_oj/auth_store.py:206-228 | with a live reset token exactly the account of its email gets the password and the next version, its sessions and the email's tokens go, and nothing else changes |
| `Accounts.NoTokenNoChange` | src/linguistic_oj/auth_store.py:209-217 | without a live token of the purpose nothing changes |
| `Accounts.IssuedTokenWorks` | src/linguistic_oj/auth_store.py:159-176 | a token is issued exactly to verify an email without account or reset one with, works for its purpose up to its time, and replaces only the email's older one; a token in use otherwise conflicts |
| `Accounts.LoginAnswers` | src/linguistic_oj/auth_store.py:230-255 | a login succeeds exactly while password and version are those read; its session answers with the account up to its time, and only the replaced session ends |
| `Accounts.RevokedIsOut` | src/linguistic_oj/auth_store.py:257-259 | a revoked session answers no more and every other as before |
| `Accounts.ThrottleKeepsLive` | src/linguistic_oj/auth_store.py:131-136 | throttling prunes only what had expired: live sessions and tokens answer as before at every later time |
| `Accounts.ProvisionAnswers` | src/linguistic_oj/auth_store.py:261-270 | an account is added with its role exactly when nothing is stored, that was expected, and identifier and handle are free |
| `Accounts.RoleChangesOnly` | src/linguistic_oj/auth_store.py:272-278 | setting a role changes that account's role and nothing else |
| `AdminStore.AdminStoreMixin.AdminChange` | src/linguistic_oj/admin_store.py:213-324 | the new tables and answer for every request: both authorizations, the revision check and the refusals in order, and one state with one audit row |
| `AdminStore.AuditRowsFormAChain` | src/linguistic_oj/admin_store.py:286-324 | audit rows of a challenge are numbered 1 to its revision, each starting from the state the one before left, the last leading to the stored state |
| `AdminStore.AuditsOnlyGrow` | src/linguistic_oj/admin_store.py:240-324 | audit rows are only added, one for each change and none for a refusal, each with its kind, the revision after the one expected and the time under the lock, naming an administrator whose session was live then |
| `AdminStore.OneChangePerRevision` | src/linguistic_oj/admin_store.py:253-256 | of all requests that expect one revision, at most one ever changes the challenge |
| `AdminStore.VisibleContentWasSavedAndPublished` | src/linguistic_oj/admin_store.py:110-113 | content shown under a fingerprint was saved as a draft under it and then published under it by the row its published revision names |
| `AdminContent.VisibleContentIsTheRequests` | src/linguistic_oj/admin_store.py:110-284 | in every run what is shown under a source is the content that the last accepted save before the last accepted publish was sent with, if that publish was for the source |
| `AdminContent.ChangesIff` | src/linguistic_oj/admin_store.py:213-324 | when a request changes its task, exactly, and to what: a save stores its content as the draft and leaves what is published, a publish the reverse, admissions only the gate; no other task changes |
| `AdminContent.CheckPredictsPublish` | src/linguistic_oj/admin_store.py:257-259 | a check changes nothing and says a task can be published exactly if the same publish would be accepted, and otherwise its first issue is that refusal |
| `AdminContent.RefusalsAre` | src/linguistic_oj/admin_store.py:220-283 | which refusal a request that is not accepted gets |
| `AdminStore.ChangedSourceFencesAdmissions` | src/linguistic_oj/admin_store.py:261-269 | after a save that records a changed source for a contracted task, no submission is admitted under any source until an explicit permitted reopening |
| `AdminStore.OpenIffReviewed` | src/linguistic_oj/admin_store.py:150-158 | submissions are admitted exactly when the task's state is not closed for their source, as the administrator view computes it |
| `Selection.SelectSamples` | src/linguistic_oj/challenge.py:370-412 | which error or which sorted samples come out, for every input and every draw: the positions held are those of the reservoir specification |
| `Selection.ReservoirDistinct` | src/linguistic_oj/challenge.py:395-409 | every outcome of the draws holds distinct positions of samples already seen |
| `Selection.SelectionPassesManifest` | src/linguistic_oj/challenge.py:351-361 | every outcome yields exactly count distinct identifiers in strictly increasing order, as the manifest checks demand |
| `Selection.EverySampleHasTheSameShare` | src/linguistic_oj/challenge.py:395-409 | over all draw sequences each matching sample is selected in exactly the share count out of matching |
| `Selection.OutcomesAreValid` | src/linguistic_oj/challenge.py:403-406 | the sequences counted are exactly those the random source can produce |
| `GoldPipeline.MakeSample` | scripts/build_standard_dataset.py:189-285 | the tasks offered, their order and the answers are exactly those the eligibility rules give |
| `GoldPipeline.OfferedIff` | scripts/build_standard_dataset.py:204-255 | a task is offered, with an answer, exactly when every form is there and every token gives its column, for dependencies numbered from 1 with heads among the tokens or the root |
| `GoldPipeline.AnswersAreColumns` | scripts/build_standard_dataset.py:208-255 | each answer is its column token by token; an arc carries the number, form, head and relation of its token and the form of the token its head names |
| `GoldPipeline.ValidatedGoldItemCount` | src/linguistic_oj/challenge.py:190-257 | an answer is accepted exactly when the alignment rules hold, and the count is the number of gold tokens |
| `GoldPipeline.ChecksTree` | src/linguistic_oj/challenge.py:222-256 | the loop over the arcs decides alignment with the tokens and the exact token numbers |
| `GoldPipeline.AcceptedIff` | src/linguistic_oj/challenge.py:190-257 | what the validator accepts, of the answers themselves: a visible segmentation, one visible item for each token, tags of the universal set, and for dependencies an aligned tree |
| `GoldPipeline.AlignedIff` | src/linguistic_oj/challenge.py:210-250 | a tree is aligned exactly when there are as many arcs as tokens, one for each token, and each names the form of its token and of its head |
| `GoldPipeline.AdvertisedIffAccepted` | scripts/build_standard_dataset.py:204-255 | for the samples the builder makes, a task is advertised exactly when the validator accepts it |
| `GoldPipeline.CountsAgreeAcrossStages` | src/linguistic_oj/model_inputs.py:109-144 | an accepted sample is shown its gold tokens, and the expected count and token numbers are theirs |
| `GoldPipeline.CanonicalIffWellFormed` | src/linguistic_oj/model_inputs.py:82-107 | rebuilding an input accepts exactly the well-formed inputs of the task's own type and changes none of them |
| `GoldPipeline.BuiltIffTokens` | src/linguistic_oj/model_inputs.py:109-129 | an input is built exactly for samples with gold tokens, and with text where text is shown, and is its own rebuilt form |
| `GoldPipeline.ValidSurfaceIffTextShown` | src/linguistic_oj/evaluation.py:104-107 | a segmentation keeps the surface exactly when it concatenates to the text shown |
| `GoldPipeline.GoldAsPredictionScoresOne` | src/linguistic_oj/evaluation.py:91-272 | gold used as the prediction scores 1 in each of the five tasks |
| `Evaluation.TokenSpans` | src/linguistic_oj/evaluation.py:75-84 | the surface and the set of spans the tokens cut it into |
| `Evaluation.OneSpanPerToken` | src/linguistic_oj/evaluation.py:75-84 | non-empty tokens have as many spans as tokens, all inside the surface |
| `Evaluation.TilingIsRigid` | src/linguistic_oj/evaluation.py:75-84 | over one surface, the spans of one list lie among those of another only if the lists are equal |
| `Evaluation.CorrectWithinBoth` | src/linguistic_oj/evaluation.py:108-116 | the correct spans are at most the predicted and at most the gold ones |
| `ScoreMeaning.CorrectAreTheKept` | src/linguistic_oj/evaluation.py:91-126 | over one surface the correct count is the number of gold tokens that stand in the prediction behind the same text, over two it is none; precision and recall are its shares of the predicted and the gold tokens |
| `Evaluation.PerfectExactlyWhenIdentical` | src/linguistic_oj/evaluation.py:91-126 | over one surface recall is 1 iff precision is 1 iff F1 is 1 iff the token lists are identical |
| `Evaluation.F1OfCounts` | src/linguistic_oj/evaluation.py:117-121 | F1 is twice the correct over predicted plus gold |
| `Evaluation.SwapExchangesPrecisionAndRecall` | src/linguistic_oj/evaluation.py:91-126 | swapping gold and prediction swaps precision and recall and keeps F1 |
| `Evaluation.ComputeDependencies` | src/linguistic_oj/evaluation.py:179-223 | the loop computes the set-based score, or refuses duplicate or malformed arcs |
| `Evaluation.DependencyBounds` | src/linguistic_oj/evaluation.py:197-223 | labelled matches are among head matches, which are among the gold tokens; a wrong token set scores nothing |
| `ScoreMeaning.DependenciesCountArcs` | src/linguistic_oj/evaluation.py:164-223 | there is a score exactly for valid arcs with one for each token; it counts the gold arcs whose head, and whose head and label, the prediction has for their token, and other tokens score nothing |
| `ScoreMeaning.TagsCountPlaces` | src/linguistic_oj/evaluation.py:129-161 | a tag score counts the places with equal tags and a wrong length scores nothing |
| `ScoreMeaning.FormsCountPlaces` | src/linguistic_oj/evaluation.py:226-272 | a transliteration counts the places with equal canonical composition, and is exact if all are |
| `Aggregation.SegmentationScoresAreValid` | src/linguistic_oj/aggregation.py:85-159 | every segmentation score on non-empty gold passes the outcome checks |
| `Aggregation.TagScoresAreValid` | src/linguistic_oj/aggregation.py:85-159 | a tag score passes exactly when its length is valid |
| `Aggregation.DependencyScoresAreValid` | src/linguistic_oj/aggregation.py:85-159 | a dependency score passes exactly when its structure is valid |
| `Aggregation.TransliterationScoresAreValid` | src/linguistic_oj/aggregation.py:85-159 | a transliteration score passes exactly when its length is valid |
| `AggregateMeaning.ValidIff` | src/linguistic_oj/aggregation.py:85-159 | an outcome can be built exactly with gold items and either an error or a score whose counts fit them and whose metrics are their ratios, F1 being twice the correct over both: the range checks follow |
| `Aggregation.AggregateSegmentation` | src/linguistic_oj/aggregation.py:283-300 | the loop computes precision, recall and F1 of the summed counts |
| `Aggregation.AggregateDependency` | src/linguistic_oj/aggregation.py:313-324 | the loop computes both attachment scores of the summed counts |
| `Aggregation.AggregateTransliteration` | src/linguistic_oj/aggregation.py:327-340 | the loop computes both accuracies of the summed counts |
| `AggregateMeaning.MetricsPoolCounts` | src/linguistic_oj/aggregation.py:283-340 | every micro metric is a ratio of counts summed over all outcomes, to which malformed ones add their gold items only |
| `AggregateMeaning.OneOutcomeIsItself` | src/linguistic_oj/aggregation.py:283-340 | the metrics of one well-formed outcome are its own scores |
| `AggregateMeaning.AggregatedIff` | src/linguistic_oj/aggregation.py:355-380 | outcomes are aggregated exactly when there are as many as samples, all of the task, and one for each sample with its gold items |
| `AggregateMeaning.ResultCountsOutcomes` | src/linguistic_oj/aggregation.py:386-408 | the result counts the outcomes, those with a score, and for each error code that occurs those with it |
| `Aggregation.OrderIsIrrelevant` | src/linguistic_oj/aggregation.py:343-408 | the whole result, refusal, metrics and error counts, is unchanged by permuting the outcomes |
| `Aggregation.MicroBetweenSamples` | src/linguistic_oj/aggregation.py:283-340 | each primary micro metric lies between the smallest and largest sample value, malformed samples counting 0 |
| `Aggregation.UasBetweenSamples` | src/linguistic_oj/aggregation.py:313-324 | the same for the unlabelled attachment score |
| `Aggregation.MicroF1OneIffAllExact` | src/linguistic_oj/aggregation.py:283-300 | micro F1 is 1 exactly when every sample is an exact match |
| `Aggregation.MetricsInRange` | src/linguistic_oj/aggregation.py:213-259 | every declared metric lies between 0 and 1 |
| `Aggregation.ResultsPassChecks` | src/linguistic_oj/aggregation.py:213-259 | the metrics and counts always pass the range and sum checks of the result |
| `KernelTrace.IntervalUnion` | src/linguistic_oj/kernel_trace.py:12-22 | the sweep returns the number of unit cells covered by at least one half-open interval |
| `KernelTrace.SameCells` | src/linguistic_oj/kernel_trace.py:12-22 | the covered cells do not depend on the order of the intervals |
| `KernelTrace.BusyWithinSum` | src/linguistic_oj/kernel_trace.py:47-51 | the union is at most the summed durations |
| `KernelTrace.BusyWithinSpan` | src/linguistic_oj/kernel_trace.py:47-51 | the union is at most the first-to-last span |
| `KernelTrace.SummarizeEvents` | src/linguistic_oj/kernel_trace.py:25-63 | there is a summary exactly for valid kernels on one device with positive summed time and span; its union, sum and span are those of the kernel intervals, and each group has its own calls and time |
| `KernelTrace.SummarizableIff` | src/linguistic_oj/kernel_trace.py:25-63 | a trace has a summary exactly when its kernels are named, not negative and on one device, and one of them lasts |
| `KernelTrace.GroupsAddUp` | src/linguistic_oj/kernel_trace.py:38-62 | the times of the groups add up to the summed durations |
| `KernelTrace.CallsAreEvents` | src/linguistic_oj/kernel_trace.py:38-62 | the calls of a group are the kernel events of its name |
| `KernelTrace.MeasureIntervals` | src/linguistic_oj/kernel_trace.py:47-51 | empty timing is refused exactly when sum or span is not positive, else the union lies within both |
| `Measurement.EachItemOnce` | src/linguistic_oj/qwen_performance.py:194-253 | under every interleaving of the consumers a finished batch has started a prefix of the work, each item exactly once with its own case and repetition; something is left out only after a stop or at the budget; the failure flag is set exactly if a row is not completed |
| `Measurement.RunKeepsInv` | src/linguistic_oj/qwen_performance.py:200-247 | every item below the cursor is in one row or with one consumer, kept by every step |
| `BatchMeaning.RowsTellTheRun` | src/linguistic_oj/qwen_performance.py:200-247 | under every interleaving each row carries the time its item was stamped with and says completed exactly if its request returned |
| `BatchMeaning.ItemsAreTakenInTime` | src/linguistic_oj/qwen_performance.py:203-211 | a consumer takes the next item exactly while no stop was asked for, items are left and the budget has not run out, and only the budget marks the batch late |
| `BatchMeaning.FlagsTellTheRun` | src/linguistic_oj/qwen_performance.py:224-247 | after a batch the termination flag is set exactly if an error left a request unclear or a provider stayed busy, and the stop flag exactly after a stop, an error or a busy provider |
| `BudgetReport.Summarize` | src/linguistic_oj/qwen_performance.py:253-309 | the code after the join computes the specified report from the sorted rows |
| `BudgetReport.ReportAddsUp` | src/linguistic_oj/qwen_performance.py:253-309 | started and not started add up to the plan, repetitions to the totals, and a repetition is called whole exactly when all its items were completed within the budget |
| `BudgetReport.MetIffEverythingInTime` | src/linguistic_oj/qwen_performance.py:269-279 | the verdict is met exactly when there is a budget, no request may still be running and every planned item was completed within it |
| `BatchMeaning.VerdictTellsTheRun` | src/linguistic_oj/qwen_performance.py:275-284 | the verdict of any finished batch as a function of what happened in it: incomplete, met, interrupted, not measured or not met |
| `BatchMeaning.ReportCountsRows` | src/linguistic_oj/qwen_performance.py:261-309 | the numbers of the report are sizes of sets of its rows, with one entry for each repetition |
| `BatchMeaning.CopyCountsRows` | src/linguistic_oj/qwen_performance.py:266-274 | so are those of each repetition |
| `BudgetReport.AssessModelBudget` | src/linguistic_oj/capacity_target.py:39-74 | the loops compute the specified assessment, or refuse a target that is not positive |
| `BatchMeaning.AssessmentIs` | src/linguistic_oj/capacity_target.py:39-68 | the second judgement, exactly: not tested on another workload or model, incomplete after an unconfirmed end, met if every pair of repetition and position is in time, else what the report said of an early end or not met |
| `BatchMeaning.CompleteCopiesAre` | src/linguistic_oj/capacity_target.py:69-72 | the number of whole copies is the number of repetitions with every position in time |
| `BudgetReport.AssessmentAgreesWithReport` | src/linguistic_oj/capacity_target.py:39-74 | on the report of any finished batch whose cases have all the positions 1 to n, in any order, the second judgement gives the same verdict, on-time count and number of whole repetitions |
| `BudgetReport.JudgementsAgreeIff` | src/linguistic_oj/capacity_target.py:39-74 | for any plan with a budget: the two judgements agree on every finished batch, whatever its providers do, exactly when each position from 1 to the number of cases occurs among the cases |
| `BudgetReport.PreparedPositionsCover` | src/linguistic_oj/qwen_performance.py:95-106 | the positions the cases are prepared with are such |
| `BudgetReport.SomeRunIsMet` | src/linguistic_oj/qwen_performance.py:194-279 | every acceptable plan with a budget has a finished batch, reached from the start, that is met with every item in time |
| `BudgetReport.MissingPositionIsMiscounted` | src/linguistic_oj/capacity_target.py:45-54 | whenever a position is missing, such a batch is met and counts every item, and is assessed as not met with fewer |
| `BudgetReport.RepeatedPositionIsMiscounted` | src/linguistic_oj/capacity_target.py:45-54 | the smallest case, two cases with one position: a batch reached from the start is met and counts two, and is assessed as not met with one |

## Left out

- HTTP, routing, middleware, cookies, mail, deployment files and the web pages: plumbing around the modelled operations.
- SQL, connections, file modes, directory and symbolic-link checks, operating-system locks: transactions and file replacements are atomic steps.
- SHA-256, Argon2, uuid, JSON text, Unicode normal form and regular expressions: injective, fresh or arbitrary functions; a submission identifier's pattern is modelled.
- Size limits on files, cursors and request bodies, and time zones: timestamps are whole numbers in UTC.
- Text checks look at ASCII white space only.
- Timestamps and identifiers compared by the database as fixed-width text are compared as numbers.
- Floating point: ratios are exact rationals, so `isclose` tolerances are equalities; durations of a batch are whole ticks.
- Rates, distributions and token counts of the measurement report: arithmetic on foreign outputs.
- `bounded_dispatch.py`, `run_serial`, queues and job runners: arbitrary interleaved callers of the ledger and the store.
- The serial ledger's operations are atomic steps; its begin lock and the bounded ledger's lock are that atomicity.
- Quotas are proved for limits that stay fixed over a run; per-contract daily limits that differ by challenge or change are not modelled.
- LedgerRuns.WriteAheadSafetyIff: an operator's recorded evidence is taken at its word; a recovery counts the requests it names as ended.
- SerialRuns.WriteAheadSafetyIff: is about runs in which a recovery that empties the slot finds no request still to be sent, which the code leaves to its owner; `RecoverySafeIff` says what happens otherwise.
- GuardedCalls.StepShrinks: a caller interrupted inside `generate` may still take the steps of its timeout in the model, which only adds runs.
- ProviderLatch.LatchGuardsUnanswered: one provider object; other providers of the same model are separate slots of the ledger.
- Leaderboard.LeaderboardPagingIsLossless: handles are fixed over the walk, as no modelled transaction changes one; results are stamped after the instant of page one, which the service's own clock chooses.
- History.HistoryPagingIsLosslessIff: items are creation time and identifier; the other columns of a row never change except its status and times, which are those of the moment it is read.
- CursorCodec.Base64RoundTrip: only encoded text is claimed to decode to what it came from; other accepted spellings of the same bytes are not compared.
- Throttling.AtMostTwiceTheLimit: one window length for every attempt, which is positive.
- AdminStore.AdminStoreMixin.AdminChange: text limits of teaching content are the validator it is given; a request's types are right by construction.
- Selection.SelectSamples: identifiers are ordered and compared but their text (and the check that it is not empty) is not modelled; filtering of samples by language, treebank and task happens before; the random source is the sequence of its outcomes.
- Measurement.EachItemOnce: what a request returns and how a score comes about are parameters of the steps.
- Contracts, registries, catalogues and backups are compared field by field for presence and equality; these comparisons, `submission_jobs` and the SQLite store are not part of this model.
