# Autonomous paper trading: verified model

A Dafny model of the hard core of an autonomous paper-trading service, with proofs that hold for every input, every run
and every interleaving. `dafny verify dfyconfig.toml` checks all of it.

## What is modelled

**Order execution over shared tables** (`Tables`, `Ledger`, `Recovery`, `ExecutionStore`, `RecoveryRun`, `Protocol`).
`Ledger` and `Recovery` say what each transaction, or each statement that commits on its own, does to the rows of intents,
reviews, confirmations, reservations, strategy allocations, terminal transitions, broker events, orders and candidates.
`ExecutionStore` issues the same transactions as the service does, statement by statement with rollback, and `RecoveryRun`
the recovery loop with its counters; both are proved to do exactly what `Ledger` and `Recovery` say.
`Protocol` is the state machine: any number of workers, each with a program counter, crashes and lease changes
between any two steps, commits that succeed and are reported as failed, and recoveries running in between. A step takes any
fence and any clock, so the theorems hold for every handover of the scheduler lease.

- What is asked and written (`Authorisation`, `CapacityLimits`, `ExecutionEffects`, `Fencing`, `RecoveryReach`,
  `RecoverySteps`): field by field, when each transaction commits and what it writes, which rows a recovery reaches and why,
  that a recovery is a run of the protocol's steps, that a caller without its lease writes nothing, and that every order sent
  was authorised by its review.
- Money (`Conservation`, `BulkExpiry`, `Capacity`, `MoneyOverRuns`, `AnswerRecords`): reserved amounts are sums of held
  reservations in every reachable state, bulk expiry refines expiry one at a time, capacity checks chain from promotion to
  claim, and an acknowledgement is recorded under an exact condition. Runs are those of the execution command and the
  recovery; order reconciliation, a service of its own that also writes these rows, is no step of them.
- Submission (`AtMostOnce`): `submitOrder` is called at most once for an intent and only with a durable attempt; recovery
  never drops an order that was or will be sent; exactly two steps leave an intent that can never be sent.
- Runs (`ProtocolWitness`, `EntryWitness`, `ExitWitness`): an exit that is sent, one whose confirmation or review expires
  while it is out, an intent claimed any number of times in vain, and an entry whose reservation is committed, settled, or
  expired while its order is out.

**Trade lifecycle** (`GraphSearch`, `TradeLifecycle`, `StatusTable`): the breadth-first path search over any finite graph, the
26-state lifecycle, the states broker statuses stand for, and runs of broker reconciliations.

**Worker event log** (`WorkerLog`, `WorkerRuns`, `WorkerHistory`, `WorkerLanguage`, `WorkerCases`, `PersistenceRetry`): the
per-cycle automaton and the language it accepts, replay detection, orphan closing, histories put in the order of their times,
and the bounded retry loop around a transaction that may commit although it reports an error, with other writers at work
between two attempts.

**Caches and streams** (`EventCache`, `DataHub`, `StockStream`): the bounded latest-event cache against the plain fold, the
activity ids, the cycles; the socket and reconnect state machine.

**Migration and selection** (`Backfill`, `Sorting`, `LifecycleImport`, `Reconciliation`, `NumericRounding`,
`CandidateSelection`): batched backfill, lifecycle import, comparison, and capped greedy selection.

**Sizes in the review gate** (`Texts`, `DecimalTexts`). Shared definitions are in `Options`, `Numbers`, `Sequences` and
`MapSums`.

Money is an exact real, time an integer number of milliseconds. Ids that the service derives by hashing are constructor terms,
that is, injective. Broker answers, clocks, crashes and commit reports are arbitrary inputs.

## What the code does not do

Each of these is proved, with a concrete case and the exact condition under which the property does hold.

- Reconciliation hops can pass through states that precede broker discovery: exactly from a filled entry whose exit is not
  yet reviewed, when another state is observed (`HopsReenterIff`, `RunReentersIff`). A filled entry whose cancellation is
  observed goes through seven states back to the exit's review (`FromFillToCancelIsShortest`, `CanceledAfterFillReenters`).
- A lost fence can be retried: exactly when the rollback failed too and the first recognised code in the rollback's error is a
  retryable one (`RetriedAfterFenceLossIff`, `ResetHidesFenceLoss`).
- A call that gives up may have stored its event: unless others stored it, exactly when some attempt's statements went
  through and its commit took effect but reported an error (`GivenUpHasStoredIff`, `GivenUpAloneHasStoredIff`);
  `GivenUpMayHaveStored` is such a call.
- The bounded cache is not the fold of greatest timestamps: exactly when more keys are touched than are retained a key is
  evicted (`BoundedIsFold`, `EvictsIff`), and it then takes in an older event (`EvictedKeyForgetsItsTime`).
  `EveryBoundForgets` gives such items for every bound.
- A worker's history need not be a word of the automaton. The check on a new event looks at the cycle's latest one and not at
  the order of their times. A stored event leaves all histories words exactly when it is later than every row of its own
  cycle and the failure it may write for an orphan is later than every row of the orphan's (`PersistKeepsWordsIff`); over a
  run, exactly when this holds of every stored event (`WordsIffInOrder`). `FallingTimesBreakHistory` is a run of two events
  that breaks it. The single active cycle needs no such condition.
- A cycle closed as an orphan can go on: it takes nothing but its worker's stop exactly when the synthetic failure is later
  than every row the orphan had (`ClosedCycleOnlyStopsIff`). `LateClosingGoesOn` is a run in which it does go on.
- An order with a durable attempt may never be sent. Exactly two steps strand its intent: an attempt that commits but is
  reported as failed, and a crash between a confirmed attempt and its call (`StrandedIff`). A stranded intent is exactly one
  that no continuation sends (`NeverSentIffStranded`), and it can be claimed any number of times (`ClaimedAgainAndAgain`).
- The acknowledgement of an order that is out cannot always be recorded. Given a complete answer for the pending intent, its
  order and event new and the fence held, it is recorded exactly when bulk expiry did not take the reservation, no recovery
  expired the confirmation, the review is still valid and the candidate still selected (`RecordedIffUnexpired`,
  `ReservationBlocksIffExpired`, `PendingConfirmation`). `ExpiredWhileOut`, `ConfirmationExpiredWhileOut` and
  `ReviewExpiredWhileOut` are runs in which each of the three expiries stops it, the last two of an exit, which has no
  reservation.
- Handing a reservation to an order keeps the capacity sum exactly if the order counts what was reserved; a market order by
  quantity counts nothing (`HandoverConstantIff`, `MarketOrderFreesCapacity`). `CommittedAndFreed` is such a run.
- `decimalText` tells zero from negative zero, and nothing else apart that denotes one number (`SameTextIff`,
  `NegativeZeroDiffers`).
- The relaxed fallback can be reached with a cap that is not positive, in terms of the request with a maximum that is not
  positive or another cap below zero (`FallsBackIff`, `RequestFallsBackIff`), and with a negative maximum it takes all eligible
  candidates but that many of the last (`NegativeMaximumSelects`).

## Model

| member | source | states |
|---|---|---|
| GraphSearch.ResolvePath | src/services/autonomousTradeLifecycleService.ts:216-236 | for any finite graph, cyclic or not: a simple path of minimum length when the target is reachable, nothing exactly when no walk reaches it |
| GraphSearch.ExpandState | src/services/autonomousTradeLifecycleService.ts:226-233 | visiting successors either arrives by a shortest path or queues exactly the states one edge further, in order of distance |
| TradeLifecycle.TransitionsAreLifecycle | src/services/autonomousTradeLifecycleService.ts:118-208 | the transition table is total on the 26 states and has exactly the listed edges |
| TradeLifecycle.ReconcileBrokerStatus | src/services/autonomousTradeLifecycleService.ts:258-287 | a stutter or a shortest simple path to the observed state; fails exactly when there is none |
| StatusTable.ReconcileEndsIn | src/services/autonomousTradeLifecycleService.ts:238-287 | the last state of whatever is answered, by a table from states to the observations they answer, the fill of a partly filled exit and a cancellation under way apart |
| StatusTable.AnswersIff | src/services/autonomousTradeLifecycleService.ts:258-287 | those cases apart, what may be answered is exactly a shortest path to the one state that fits the observation |
| StatusTable.FillingGoesForward | src/services/autonomousTradeLifecycleService.ts:238-287 | accepted, partially filled and filled of an entry persist acceptance, partial fill and fill in that order, each one edge further |
| TradeLifecycle.ReconcileIsIdempotent | src/services/autonomousTradeLifecycleService.ts:258-287 | the same broker status applied to its own outcome changes nothing |
| TradeLifecycle.OutcomeIsPostDiscovery | src/services/autonomousTradeLifecycleService.ts:238-287 | an observation never leaves a state that precedes broker discovery |
| TradeLifecycle.InteriorIsNotTerminal | src/services/autonomousTradeLifecycleService.ts:199-214 | no walk goes on from a terminal state |
| TradeLifecycle.HopsReenterIff | src/services/autonomousTradeLifecycleService.ts:258-287 | the hops re-enter a pre-discovery state exactly from a filled entry awaiting its exit, when another state is observed |
| TradeLifecycle.FromFillToCancelIsShortest | src/services/autonomousTradeLifecycleService.ts:216-236 | from filled to cancelled no path is shorter than the one through the exit's review and confirmation |
| TradeLifecycle.CanceledAfterFillReenters | src/services/autonomousTradeLifecycleService.ts:258-287 | the failing case: a cancellation observed for a filled entry is answered by seven states that go back to the exit's review |
| TradeLifecycle.RunIsWalk | src/services/autonomousTradeLifecycleService.ts:216-287 | every run of reconciliations is one walk of the graph that never leaves a terminal state |
| TradeLifecycle.PersistedStaysLate | src/services/autonomousTradeLifecycleService.ts:238-287 | after broker discovery, no run persists a pre-discovery state |
| TradeLifecycle.RunReentersIff | src/services/autonomousTradeLifecycleService.ts:258-287 | over runs, the exact condition under which hops go back before discovery |
| ExecutionStore.Store.PromoteNextConfirmed | src/services/autonomousPostgresExecutionService.ts:553-884 | the promotion's statements with rollback do exactly what Ledger.Promote says, and report its failure; what that asks and writes is Authorisation's and CapacityLimits' part |
| ExecutionStore.Store.MeasureUsage | src/services/autonomousPostgresExecutionService.ts:606-660 | the sums the capacity query computes |
| ExecutionStore.Store.ClaimIntent | src/services/autonomousPostgresExecutionService.ts:911-1102 | the claim's statements do exactly what Ledger.Claim says, and report its failure; what that asks is Authorisation's part |
| ExecutionStore.Store.ReleaseClaimed | src/services/autonomousPostgresExecutionService.ts:1104-1128 | a pending intent goes back to ready, and its candidate is deferred, or nothing changes |
| ExecutionStore.Store.PersistAttempt | src/services/autonomousPostgresExecutionService.ts:1417-1479 | the attempt event goes in once; a second attempt fails and changes nothing |
| ExecutionStore.Store.PersistSubmission | src/services/autonomousPostgresExecutionService.ts:1211-1415 | all rows of an acknowledgement are written, live or terminal, or none with the first failure |
| ExecutionStore.Store.PersistAmbiguity | src/services/autonomousPostgresExecutionService.ts:1481-1547 | a pending intent becomes ambiguous with its event, or nothing changes |
| ExecutionStore.Store.PersistRejection | src/services/autonomousPostgresExecutionService.ts:1558-1604 | a pending intent becomes failed with its event; the reservation is untouched |
| ExecutionStore.Store.PersistReconciliation | src/services/autonomousPostgresExecutionService.ts:1606-1680 | the reconciled receipt is stored and review and confirmation consumed, expired ones included |
| Authorisation.PromoteIffRipe | src/services/autonomousPostgresExecutionService.ts:553-700 | a promotion commits exactly under the caller's own lease, for a created intent of the command with a live review of its account, and for an entry with a positive risk within every limit |
| Authorisation.PromotionEvidence | src/services/autonomousPostgresExecutionService.ts:690-812 | confirmation and reservation last until the review ends or fifteen minutes from now, whichever is earlier |
| Authorisation.ClaimIffAuthorised | src/services/autonomousPostgresExecutionService.ts:167-208 | a claim commits exactly under the caller's own lease, if every term of the ready intent's order is the review's, review, confirmation and reservation are live, no acknowledgement is known and every limit is kept |
| Authorisation.SentAsAuthorised | src/services/autonomousPostgresExecutionService.ts:1072-1102 | over every run, an order that is sent was claimed by its sender while so authorised, and is the order reviewed |
| Fencing.NoLeaseNoWrite | src/services/autonomousPostgresExecutionService.ts:1088-1100 | a caller that does not own its lease changes no row in any step |
| ExecutionEffects.PromotionIs | src/services/autonomousPostgresExecutionService.ts:690-884 | a promotion writes the intent, one confirmation, the entry's reservation and allocation, and the candidate's stage, and nothing else |
| ExecutionEffects.PromotionReservesRisk | src/services/autonomousPostgresExecutionService.ts:715-812 | an entry reserves its risk amount for its symbol under its strategy's allocation; an exit reserves nothing |
| ExecutionEffects.SubmissionIff | src/services/autonomousPostgresExecutionService.ts:1211-1415 | an answer is recorded exactly if it is complete and the intent's own, under the lease, new to the tables, with valid evidence and a reservation that fits |
| ExecutionEffects.OrderRecorded | src/services/autonomousPostgresExecutionService.ts:1228-1316 | the order row and the event hold what was sent and answered |
| ExecutionEffects.IntentRecorded | src/services/autonomousPostgresExecutionService.ts:1262-1316 | the intent is cancelled, failed or submitted, in the state its answer stands for |
| ExecutionEffects.ReservationRecorded | src/services/autonomousPostgresExecutionService.ts:1317-1382 | the reservation is released with its terminal row when the order ended unfilled, else committed |
| ExecutionEffects.EvidenceRecorded | src/services/autonomousPostgresExecutionService.ts:1383-1410 | review and confirmation are consumed, the candidate is executed or deferred |
| ExecutionEffects.AttemptIs | src/services/autonomousPostgresExecutionService.ts:1417-1479 | when an attempt is recorded, and the rows it writes |
| ExecutionEffects.ReleaseIs | src/services/autonomousPostgresExecutionService.ts:1104-1128 | when a claim is released, and the rows it writes |
| ExecutionEffects.AmbiguousIs | src/services/autonomousPostgresExecutionService.ts:1481-1547 | when doubt is recorded, and the rows it writes |
| ExecutionEffects.DoubtFiledAs | src/services/autonomousPostgresExecutionService.ts:1991-2029 | what an answer that could not be recorded is filed as |
| ExecutionEffects.RejectionIs | src/services/autonomousPostgresExecutionService.ts:1558-1604 | when a rejection is recorded, and the rows it writes |
| ExecutionEffects.ReceiptIs | src/services/autonomousPostgresExecutionService.ts:1606-1680 | when a receipt is stored, and the rows it writes, the intent's not among them |
| Conservation.PromoteKeepsLedger | src/services/autonomousPostgresExecutionService.ts:749-812 | a promotion, committed or not, keeps the ledger invariant |
| Capacity.PromotionReserves | src/services/autonomousPostgresExecutionService.ts:749-812 | an entry's promotion adds one new active reservation of its risk amount and credits its allocation the same |
| Conservation.SubmissionKeepsLedger | src/services/autonomousPostgresExecutionService.ts:1317-1382 | recording an acknowledgement, live or terminal, keeps the ledger invariant |
| Conservation.SettleKeepsLedger | src/services/autonomousPostgresExecutionService.ts:1317-1371 | settling a held reservation debits exactly its amount; the clamp does not act |
| Conservation.HeldIsCovered | src/services/autonomousPostgresExecutionService.ts:1323-1350 | in a sound ledger a held reservation is covered by its allocation and has no terminal row |
| Conservation.CancelStaleKeepsLedger | src/services/autonomousPostgresCommandService.ts:216-334 | the stale-ready cancellation reports neither mismatch nor failed release and keeps the invariant |
| Recovery.ReadyExitIsAlwaysStale | src/services/autonomousPostgresCommandService.ts:163-191 | an exit intent, which has no reservation, is stale as soon as it is ready |
| BulkExpiry.AnyOrderSameState | src/services/autonomousPostgresCommandService.ts:352-463 | expiring a group at once equals expiring its members singly in any order |
| BulkExpiry.GroupsAreCovered | src/services/autonomousPostgresCommandService.ts:378-393 | no group of active reservations exceeds its allocation |
| BulkExpiry.BulkExpireIsTotal | src/services/autonomousPostgresCommandService.ts:352-481 | in a sound ledger the statement reports no mismatch and expires everything past its time, as single expiries would |
| BulkExpiry.BulkExpireKeepsLedger | src/services/autonomousPostgresCommandService.ts:352-481 | bulk expiry keeps the ledger invariant |
| MoneyOverRuns.MoneyIsConserved | src/services/autonomousPostgresExecutionService.ts:749-812 | in every state runs of workers and recoveries reach, reserved amounts equal held reservations, terminal rows match, no allocation is exceeded, and no recovery statement fails |
| MoneyOverRuns.ClampNeverActs | src/services/autonomousPostgresExecutionService.ts:1332-1340 | over every run of workers and recoveries the clamp at zero never changes a debit |
| MoneyOverRuns.ReservationBlocksIffExpired | src/services/autonomousPostgresExecutionService.ts:1317-1382 | over every run the release or commit of a pending intent's reservation fails exactly when bulk expiry took it; review and confirmation are AnswerRecords' part |
| AnswerRecords.RecordedIffUnexpired | src/services/autonomousPostgresExecutionService.ts:1317-1400 | over every run an answer that can be delivered is recorded exactly when bulk expiry did not take the reservation, no recovery expired the confirmation, the review is valid and the candidate selected |
| AnswerRecords.PendingConfirmation | src/services/autonomousPostgresCommandService.ts:488-493 | over every run a pending intent's confirmation is valid or expired, and expired exactly when a recovery of the run found it past its time |
| MoneyOverRuns.CommittedStays | src/services/autonomousPostgresExecutionService.ts:1372-1382 | no worker and no recovery releases, expires or changes a committed reservation |
| MoneyOverRuns.RejectionSound | src/services/autonomousPostgresExecutionService.ts:1558-1604 | a deterministic rejection leaves every reservation as it was |
| Capacity.PromotionCheckIsClaimCheck | src/services/autonomousPostgresExecutionService.ts:606-693 | checking with an amount still to reserve is the claim's check once it is reserved |
| Capacity.BlockedIffUnclaimable | src/services/autonomousPostgresExecutionService.ts:606-693 | an entry is blocked exactly when, once promoted, the claim's capacity check would fail at the same time and snapshot |
| Capacity.PromotionKeepsClaims | src/services/autonomousPostgresExecutionService.ts:1028-1072 | after a promotion every claim-time inequality that held still holds, now and later, the new intent's included |
| CapacityLimits.PromotionWithinLimits | src/services/autonomousPostgresExecutionService.ts:606-693 | after a committed promotion of an entry, reservations and open orders leave the buying power both cash reserves, and deployment, allocation, symbol and count limits are kept |
| CapacityLimits.BlockedIffOverLimits | src/services/autonomousPostgresExecutionService.ts:652-693 | an entry with a positive risk is blocked exactly when its amount added would break one of these inequalities |
| CapacityLimits.ClaimWithinLimits | src/services/autonomousPostgresExecutionService.ts:1028-1072 | a committed claim of an intent with a reservation keeps all of them |
| Capacity.HandoverIsExact | src/services/autonomousPostgresExecutionService.ts:1240-1382 | recording an order takes out what its reservation counted and adds what the open order counts |
| Capacity.HandoverConstantIff | src/services/autonomousPostgresExecutionService.ts:1372-1382 | reservations plus open orders stay constant exactly when the two are equal |
| Capacity.MarketOrderFreesCapacity | src/services/autonomousPostgresExecutionService.ts:617-633 | committing a market order by quantity, which counts nothing, lowers the account's exposure |
| AtMostOnce.SubmittedAtMostOnce | src/services/autonomousPostgresExecutionService.ts:1815-1981 | over every run, submitOrder is called at most once for an intent, with its attempt event durable |
| AtMostOnce.ClaimableWasNeverSent | src/services/autonomousPostgresExecutionService.ts:1088-1128 | over every run a created or ready intent has no submission and no worker on it |
| AtMostOnce.DroppedIsNeverSent | src/services/autonomousPostgresCommandService.ts:216-339 | an intent that recovery dropped was never sent and never will be |
| AtMostOnce.OneWorkerPerIntent | src/services/autonomousPostgresExecutionService.ts:1088-1100 | at every moment at most one worker holds an intent |
| AtMostOnce.StepOrderly | src/services/autonomousPostgresExecutionService.ts:1800-2057 | every step of every worker, recovery and environment keeps the phase invariant |
| AtMostOnce.StepStranded | src/services/autonomousPostgresExecutionService.ts:1434-1466 | a durable attempt that no worker is past blocks its intent for good |
| AtMostOnce.MisreportedAttemptIsNeverSent | src/services/autonomousPostgresExecutionService.ts:1858-1879 | an attempt that commits but reports failure means the order is never sent, whatever follows |
| AtMostOnce.StrandedIff | src/services/autonomousPostgresExecutionService.ts:1858-1981 | a step strands an intent exactly when it is a committing attempt reported as failed, or a crash between a confirmed attempt and its call |
| AtMostOnce.NeverSentIffStranded | src/services/autonomousPostgresExecutionService.ts:1434-1466 | with its attempt durable, an intent is stranded exactly when no continuation ever calls for it |
| AtMostOnce.PreservingIsIdle | src/services/autonomousPostgresCommandService.ts:192-214 | with a truthful broker the statement that preserves a stale intent never finds one |
| ProtocolWitness.AnOrderIsSent | src/services/autonomousPostgresExecutionService.ts:1691-2057 | some run from the empty tables sends an order and records it |
| ProtocolWitness.ClaimedAgainAndAgain | src/services/autonomousPostgresExecutionService.ts:1858-1879 | for every number there is a run that strands an intent and then claims it that many times, the order never being sent |
| EntryWitness.ExpiredWhileOut | src/services/autonomousPostgresCommandService.ts:352-481 | a run in which a pending intent, its order sent, meets its expired reservation, and its acknowledgement is refused |
| ExitWitness.ConfirmationExpiredWhileOut | src/services/autonomousPostgresCommandService.ts:488-493 | a run of an exit, its order sent and nothing reserved, whose acknowledgement is refused since the recovery expired its confirmation |
| ExitWitness.ReviewExpiredWhileOut | src/services/autonomousPostgresCommandService.ts:482-487 | the same for its review |
| EntryWitness.CommittedAndFreed | src/services/autonomousPostgresExecutionService.ts:1372-1382 | a run that commits a reservation to a market order and lowers the exposure by it |
| EntryWitness.SettledByCancellation | src/services/autonomousPostgresExecutionService.ts:1317-1371 | a run that releases a reservation with its terminal row when the broker answers with a cancellation |
| RecoveryRun.RunRecovery | src/services/autonomousPostgresCommandService.ts:129-556 | the recovery, statement by statement: which rows it visits, what it counts, where it stops |
| RecoveryRun.RecoverStaleReady | src/services/autonomousPostgresCommandService.ts:157-339 | the loop issues one row's statement after the other, for exactly the stale rows selected at its start, each once |
| RecoveryRun.PreserveIntent | src/services/autonomousPostgresCommandService.ts:192-214 | a ready intent the broker knows becomes ambiguous, and is counted exactly then |
| RecoveryRun.CancelIntent | src/services/autonomousPostgresCommandService.ts:216-334 | lock, compare, cancel, insert the terminal row, release and adjust do what the cancellation says, and count what they did |
| RecoveryReach.SelectedIff | src/services/autonomousPostgresCommandService.ts:157-191 | under its lease the recovery selects exactly the ready intents without an order of whose candidate, review, confirmation and reservation one no longer stands |
| RecoveryReach.StandingIsLeftAlone | src/services/autonomousPostgresCommandService.ts:157-191 | a whole recovery leaves a ready intent as it was that has an order, or whose candidate is selected, open and under thirty minutes old and whose evidence and reservation stand |
| RecoveryReach.OthersAreResolved | src/services/autonomousPostgresCommandService.ts:157-339 | every other ready intent whose review and candidate exist ends ambiguous or cancelled, as the broker answers |
| RecoveryReach.CreatedCancelledIff | src/services/autonomousPostgresCommandService.ts:494-520 | exactly the created intents whose review no longer stands are cancelled |
| RecoveryReach.ReviewExpiresIff | src/services/autonomousPostgresCommandService.ts:482-487 | exactly the open reviews past their time expire |
| RecoveryReach.ConfirmationExpiresIff | src/services/autonomousPostgresCommandService.ts:488-493 | exactly the valid confirmations past their time expire |
| RecoveryReach.ReservationExpiresIff | src/services/autonomousPostgresCommandService.ts:352-481 | exactly the active reservations past their time expire |
| RecoverySteps.RecoveryIsRun | src/services/autonomousPostgresCommandService.ts:129-556 | a whole recovery that nothing comes between, wherever it stops, leaves the tables of a run of the protocol's steps |
| RecoverySteps.DroppedForReason | src/services/autonomousPostgresCommandService.ts:157-334 | over every run, recovery drops an intent only under its lease, as created with a review that no longer stood, or as ready, stale when selected, without an order and not known to the broker when asked |
| RecoverySteps.PreservedForReason | src/services/autonomousPostgresCommandService.ts:157-214 | over every run, a ready intent becomes ambiguous only after it was selected as stale and the broker knew its order |
| RecoveryRun.ExpireReservations | src/services/autonomousPostgresCommandService.ts:352-481 | lock, group, compare, insert, debit and expire do what the bulk statement says |
| RecoveryRun.GroupedAmounts | src/services/autonomousPostgresCommandService.ts:378-387 | one sum for each allocation that some locked reservation is under |
| RecoveryRun.RowsResolve | src/services/autonomousPostgresCommandService.ts:192-339 | with an answering broker the loop never fails, counts every row once, cancels exactly the absent ones and keeps the found ones |
| RecoveryRun.RecoverySettlesEverything | src/services/autonomousPostgresCommandService.ts:129-556 | a whole recovery in a sound ledger never fails and leaves nothing stale |
| RecoveryRun.SecondRecoveryIsIdle | src/services/autonomousPostgresCommandService.ts:129-556 | from the tables the first recovery ends with, a second one at the same moment selects no row and changes nothing |
| WorkerLog.Table.PersistEvent | src/services/autonomousWorkerStateService.ts:403-615 | the statements with rollback do exactly what WorkerLog.Persist says; what that accepts is WorkerLanguage's part |
| WorkerLog.Table.SelectLatest | src/services/autonomousWorkerStateService.ts:543-556 | the cycle's latest event by time, then by id |
| WorkerLog.Table.SelectOrphan | src/services/autonomousWorkerStateService.ts:460-482 | the latest start of another cycle inside the window that has no terminal event |
| WorkerRuns.LatestIsGreatest | src/services/autonomousWorkerStateService.ts:543-556 | no event of the cycle is at a later time, or at the same time with a greater id |
| WorkerRuns.OrphanIsLatestUnended | src/services/autonomousWorkerStateService.ts:460-482 | of the other cycles started in the last six hours and neither completed, failed nor stopped, one with the greatest time |
| WorkerLanguage.WordsAreLanguage | src/services/autonomousWorkerStateService.ts:383-401 | a history is accepted event by event exactly when it is empty, a failed preflight, or a start, finished workstreams, at most one unfinished or failed one, a completion or failure, and a stop |
| WorkerLanguage.StoredIffInLanguage | src/services/autonomousWorkerStateService.ts:383-401 | over such histories an event in order is stored exactly under the fence, with its workstream named, when its history stays in the language |
| WorkerCases.CycleCompletes | src/services/autonomousWorkerStateService.ts:383-401 | a run that stores a start, a workstream's start and completion, and the cycle's completion |
| WorkerHistory.HistoriesAreWords | src/services/autonomousWorkerStateService.ts:383-401 | from the empty log every history by time stays a word exactly when stored events come in order; then ends pair with starts of the same name and nothing follows a stop or failed preflight |
| WorkerHistory.PersistKeepsWordsIff | src/services/autonomousWorkerStateService.ts:460-603 | a stored event leaves every history by time a word exactly when it is later than its cycle's rows and the synthetic failure is later than the orphan's |
| WorkerHistory.WordsIffInOrder | src/services/autonomousWorkerStateService.ts:543-586 | throughout a run from any such log every history stays a word exactly when every stored event comes in order |
| WorkerHistory.ClosedCycleOnlyStopsIff | src/services/autonomousWorkerStateService.ts:484-516 | once an orphan is closed its cycle takes nothing but a worker stop exactly when the synthetic failure is later than every row it had |
| WorkerHistory.ClosedCycleOnlyStops | src/services/autonomousWorkerStateService.ts:484-516 | while events come in order, a cycle closed as an orphan is only ever extended by one worker stop |
| WorkerRuns.AtMostOneActiveCycle | src/services/autonomousWorkerStateService.ts:460-516 | whatever the event times, over every run at most one cycle that started in the last six hours has neither completed nor failed nor stopped |
| WorkerRuns.PersistKeepsRows | src/services/autonomousWorkerStateService.ts:441-603 | whatever the times, rows stay distinct and every failed event has its failure row |
| WorkerHistory.WordIffStoredLast | src/services/autonomousWorkerStateService.ts:543-586 | an event that may follow the last one extends a word there and breaks it in every other position |
| WorkerCases.FallingTimesBreakHistory | src/services/autonomousWorkerStateService.ts:543-586 | a run of two accepted events with falling times, whose history by time is no word |
| WorkerCases.LateClosingGoesOn | src/services/autonomousWorkerStateService.ts:484-586 | a run in which a cycle closed at an earlier time than its last event accepts a workstream's completion |
| PersistenceRetry.ErrorIdentity | src/services/autonomousWorkerStateService.ts:140-192 | the first recognised code met breadth first through sixteen errors, cyclic or not, else the first fallback |
| PersistenceRetry.BoundedRetryDelay | src/services/autonomousWorkerStateService.ts:204-219 | between half of the doubled base delay and all of it, never above the maximum |
| PersistenceRetry.RunPersistence | src/services/autonomousWorkerStateService.ts:221-344 | at most five attempts and never more than asked for, one bounded delay between two, and the effect the attempts specify |
| PersistenceRetry.AttemptLimitIs | src/services/autonomousWorkerStateService.ts:225-234 | the limit is the whole part of what is asked for, at least one and at most five, by default three |
| PersistenceRetry.GivesUpAtLast | src/services/autonomousWorkerStateService.ts:256-344 | it gives up on a retryable error only after its last attempt |
| PersistenceRetry.SecondAttempt | src/services/autonomousWorkerStateService.ts:256-344 | by default a first attempt that fails with a retryable error is followed by a second |
| PersistenceRetry.RecognisedIff | src/services/autonomousWorkerStateService.ts:160-174 | recognised are the lost fence, every SQLSTATE and seven system errors |
| PersistenceRetry.RecognisedCodeIff | src/services/autonomousWorkerStateService.ts:160-174 | an error's code is passed on exactly if it is one of these |
| PersistenceRetry.FallbackIs | src/services/autonomousWorkerStateService.ts:175-182 | the fallback is an error's application code, else its message if that is one |
| PersistenceRetry.RetryableIff | src/services/autonomousWorkerStateService.ts:23-41 | retryable are lost connections, seven SQLSTATEs and seven system errors |
| PersistenceRetry.TryTransaction | src/lib/database/postgresTransaction.ts:77-87 | one attempt: begin, the event's statements, commit, and a rollback that may fail, leaving the log and the error as specified |
| PersistenceRetry.ExactlyOneEffect | src/services/autonomousWorkerStateService.ts:256-344 | with any other writers between attempts, at most one attempt takes effect, and the log is what the others' requests and that one leave |
| PersistenceRetry.ReturnedMeansOneRow | src/services/autonomousWorkerStateService.ts:441-456 | with any other writers between attempts, a call that returns has left exactly one row with its id |
| PersistenceRetry.GivenUpHasStoredIff | src/services/autonomousWorkerStateService.ts:256-344 | with any other writers, a call that gives up has its event in the log exactly when it was there, another writer stored it, or some attempt committed under an error |
| PersistenceRetry.GivenUpAloneHasStoredIff | src/services/autonomousWorkerStateService.ts:256-344 | without other writers, exactly when some attempt's statements went through and its commit took effect but reported an error |
| PersistenceRetry.GivenUpMayHaveStored | src/services/autonomousWorkerStateService.ts:312-340 | a concrete call that gives up with its event stored |
| PersistenceRetry.RetriedAfterFenceLossIff | src/services/autonomousWorkerStateService.ts:278-312 | the exact condition under which a lost fence is retried; never after a rollback that works |
| PersistenceRetry.ResetHidesFenceLoss | src/lib/database/postgresTransaction.ts:77-87 | a failed rollback with a reset connection hides the lost fence |
| EventCache.NeverExceedsBound | src/services/alpacaDataHubService.ts:1100-1104 | on any input the cache stays consistent and within its bound |
| EventCache.CacheHoldsLastAccepted | src/services/alpacaDataHubService.ts:1094-1104 | on any input it holds the most recently accepted keys, each with its last accepted event |
| EventCache.BoundedIsFold | src/services/alpacaDataHubService.ts:277-302 | it is the fold of greatest timestamp, last on ties, exactly when at most as many keys are touched as are retained |
| EventCache.EvictsIff | src/services/alpacaDataHubService.ts:1100-1104 | some touched key is evicted exactly when more keys are touched than are retained |
| EventCache.EvictedKeyForgetsItsTime | src/services/alpacaDataHubService.ts:1094-1104 | for every bound, an evicted key takes in whatever comes next for it, which is its greatest event exactly when none forgotten was later |
| EventCache.EveryBoundForgets | src/services/alpacaDataHubService.ts:369 | for every bound some items make the cache show an event older than one recorded under the same key |
| DataHub.Hub.RecordEvent | src/services/alpacaDataHubService.ts:1094-1108 | the cache and the recent events are what recording all events leaves |
| DataHub.Hub.IngestActivity | src/services/alpacaDataHubService.ts:1059-1092 | an activity is taken exactly when its id is not among the last ones accepted |
| DataHub.Hub.BuildCycle | src/services/alpacaDataHubService.ts:1128-1199 | quote and trade lookups are exactly the latest entries of the wanted symbols |
| DataHub.Hub.BeginHydration | src/services/alpacaDataHubService.ts:551-613 | a known cycle's load is shared, a replaced one starts anew, the oldest cycles give way |
| DataHub.Hub.CompleteHydration | src/services/alpacaDataHubService.ts:575-599 | a finished load records what it brought, and keeps the cycle built then unchanged from then on |
| DataHub.Hub.FailHydration | src/services/alpacaDataHubService.ts:600-605 | a failed load removes whatever load its cycle id has by then |
| DataHub.CycleShowsGreatest | src/services/alpacaDataHubService.ts:1128-1199 | a built cycle shows the greatest quote and the greatest trade recorded for each wanted symbol, while few enough keys are touched |
| StockStream.Stream.Start | src/services/alpacaStockStream.ts:295-308 | a started, enabled stream has exactly one of socket and reconnect timer |
| StockStream.Stream.Stop | src/services/alpacaStockStream.ts:310-334 | a stopped stream has neither |
| StockStream.Stream.FireTimer | src/services/alpacaStockStream.ts:724-728 | a fired reconnect leaves a socket or a new timer |
| StockStream.Stream.OnMessage | src/services/alpacaStockStream.ts:502-523 | authentication subscribes every symbol; superseded sockets change nothing |
| StockStream.Stream.OnError | src/services/alpacaStockStream.ts:686-697 | the current socket's error trades it for a timer; any other socket's changes nothing |
| StockStream.Stream.OnClose | src/services/alpacaStockStream.ts:699-712 | the current socket's close trades it for a timer; any other socket's changes nothing |
| StockStream.Stream.ScheduleReconnect | src/services/alpacaStockStream.ts:714-731 | never a second timer; delays double up to the maximum |
| StockStream.Stream.SetSymbols | src/services/alpacaStockStream.ts:336-352 | while sends succeed the server's subscriptions stay exactly the wanted symbols |
| StockStream.DifferencesSuffice | src/services/alpacaStockStream.ts:336-352 | adding the new and removing the gone symbols turns the old subscriptions into the new |
| StockStream.ChannelsAre | src/services/alpacaStockStream.ts:336-352 | on each configured channel exactly the wanted symbols, on the others none |
| Backfill.Target.InsertInBatches | src/services/controlPlaneMigrationService.ts:1223-1264 | the loop over batches, each all or nothing, stops at a conflict |
| Backfill.BackfillMerges | src/services/controlPlaneMigrationService.ts:1223-1264 | it conflicts exactly on incompatible rows, else adds and counts exactly the rows the table lacked |
| Backfill.BatchSizeIndependent | src/services/controlPlaneMigrationService.ts:1234-1236 | the batch size shows neither in the tables nor in the count |
| Backfill.ResumeCompletes | src/services/controlPlaneMigrationService.ts:1286-1315 | rerunning after any stop with any batch size completes the same tables |
| Backfill.RerunInsertsNothing | src/services/controlPlaneMigrationService.ts:1244-1258 | a further run inserts nothing |
| Backfill.NothingIsOverwritten | src/services/controlPlaneMigrationService.ts:1244-1258 | a row that was there stays as it was, conflict or not |
| Backfill.ConflictLeavesWholeBatches | src/services/controlPlaneMigrationService.ts:1237-1262 | a conflict leaves exactly the whole batches before it |
| LifecycleImport.ReadLifecycle | src/services/controlPlaneMigrationService.ts:831-988 | classifying, numbering and updating do what their specifications say, and each issue names its row and its problem |
| LifecycleImport.RowsAreConserved | src/services/controlPlaneMigrationService.ts:847-946 | every row is emitted once, deferred or reported, and none is lost or doubled |
| LifecycleImport.WrittenIff | src/services/controlPlaneMigrationService.ts:847-946 | a row is written for a candidate exactly when its status is known and its decision and the candidate name each other |
| LifecycleImport.DeferredIff | src/services/controlPlaneMigrationService.ts:865-885 | a row is deferred exactly when its decision names no candidate, or is a review artifact's entry and names one that is not known |
| LifecycleImport.IssueIff | src/services/controlPlaneMigrationService.ts:847-905 | an issue is raised exactly for the rows it is true of |
| LifecycleImport.EventsAreSequenced | src/services/controlPlaneMigrationService.ts:947-988 | per candidate numbers run from zero in time and id order, prior statuses chain, the last status is the candidate's |
| Reconciliation.CompareControlPlane | src/services/controlPlaneMigrationService.ts:1578-1775 | no discrepancy is reported exactly when both sides agree, the request and correlation ids of events included |
| Reconciliation.ClassifyNumerics | src/services/controlPlaneMigrationService.ts:1486-1535 | every candidate is counted in exactly one class; no mismatch exactly when all are exact or equivalent |
| Reconciliation.StoredIsEquivalent | src/services/controlPlaneMigrationService.ts:1486-1535 | what a numeric column stores is never a mismatch with what was to be stored |
| NumericRounding.StoredIsNearest | src/services/controlPlaneMigrationService.ts:1486-1535 | a numeric is stored at the column's scale as the nearest value, a half away from zero, exactly if its digits fit the precision |
| NumericRounding.ClassesMean | src/services/controlPlaneMigrationService.ts:1486-1535 | exact means the same numbers stored alike, equivalent stored alike, overflow a value too large, mismatch the rest |
| Reconciliation.BackfillReconciles | src/services/controlPlaneMigrationService.ts:1578-1775 | an imported snapshot backfilled into empty tables, with any batch size and no conflict, reconciles without a discrepancy |
| Reconciliation.AgreementFixesLinks | src/services/controlPlaneMigrationService.ts:1655-1664 | without a discrepancy every stored candidate has the source's decision |
| CandidateSelection.Rank | src/services/candidateRankingService.ts:558-634 | the selection, and one decision for every candidate with its rank or what stood in its way |
| CandidateSelection.GreedyWithinCaps | src/services/candidateRankingService.ts:565-596 | the strict selection keeps every cap |
| CandidateSelection.GreedyIsMaximal | src/services/candidateRankingService.ts:565-596 | adding any skipped eligible candidate breaks a cap |
| CandidateSelection.SelectionDescends | src/services/candidateRankingService.ts:558-615 | ranks descend in score, and only eligible candidates are taken |
| CandidateSelection.ProfileDecides | src/services/candidateRankingService.ts:315-335 | with nothing asked for, the selection keeps the profile's caps of symbols, directions and expressions, and anyone else eligible would break one |
| CandidateSelection.AskedOrProfile | src/services/candidateRankingService.ts:467-472 | a cap asked for, if not zero, is the cap; else the profile's is |
| CandidateSelection.FallsBackIff | src/services/candidateRankingService.ts:598-608 | the relaxed fallback is reached exactly for an aggressive profile with somebody eligible and a cap that is not positive |
| CandidateSelection.RequestFallsBackIff | src/services/candidateRankingService.ts:467-472 | the same in terms of the request: a maximum that is not positive or another cap below zero, since a zero cap is replaced by the profile's |
| CandidateSelection.NegativeMaximumSelects | src/services/candidateRankingService.ts:602-604 | with any negative maximum the fallback selects all eligible candidates but that many of the last |
| DecimalTexts.DecimalTextIsStable | src/services/autonomousPostgresExecutionService.ts:153-165 | on plain decimals the text is stable and denotes the same number |
| DecimalTexts.MissingIff | src/services/autonomousPostgresExecutionService.ts:153-154 | nothing but a missing or empty value has no text |
| DecimalTexts.SameTextIff | src/services/autonomousPostgresExecutionService.ts:153-165 | equal texts exactly for equal numbers of equal sign |
| DecimalTexts.SameTextUnlessZero | src/services/autonomousPostgresExecutionService.ts:153-165 | on unsigned decimals equal texts exactly for equal numbers; only zero has two texts |
| DecimalTexts.NegativeZeroDiffers | src/services/autonomousPostgresExecutionService.ts:153-165 | zero and negative zero have different texts |
| DecimalTexts.GateComparesNumbers | src/services/autonomousPostgresExecutionService.ts:194-208 | the gate's size comparison is numeric equality on missing or unsigned sizes |

## Left out

- SQL execution, isolation levels, row locks and JSON columns: a transaction or a statement that commits on its own is one step.
- The HTTP client, WebSocket library, timers and clocks: their answers are inputs.
- Market-evidence checks, asset eligibility and paper-safety switches before a submission: `Protocol` lets the gate fail at will.
- Ambiguous-submission recovery, lease acquisition and portfolio arbitration: services outside these files.
  `Protocol` lets orders, reviews, candidates, leases and account books change at will, and keeps the deployed amount fixed.
- MoneyOverRuns.MoneyIsConserved: holds of the execution command and the recovery; order reconciliation (src/services/postgresReconciliationService.ts:518-552) also releases reservations, without a terminal row, and is no step here.
- MoneyOverRuns.CommittedStays: likewise; order reconciliation (src/services/postgresReconciliationService.ts:978-990, 1403-1412) resizes and releases committed reservations.
- Recovery of research runs and the lifecycle fingerprints: rows nothing else here reads.
- RecoveryRun.RecoverStaleReady: an intent with an empty client order id, which the loop skips, cannot occur.
- ExecutionStore.Store.PromoteNextConfirmed: the row comes as a parameter; that it is the oldest unlocked one, and the lifecycle fingerprint it writes, are not modelled.
- ExecutionStore.Store.ClaimIntent: the row comes as a parameter, and the optional payload signature is not compared.
- WorkerLog.Table.PersistEvent: ids, types and times come well formed; payloads are the workstream text and a number, without redaction.
- DataHub.Hub.CompleteHydration: the account activities a load brings go through `IngestActivity` one by one.
- DataHub.Hub.BuildCycle: bars and the lists of events by type are not modelled, nor are keys whose parts contain a colon.
- The hub's `getLatest` and its REST hydrations: bounded maps of the same kind as the cycles.
- StockStream.Stream.SetSymbols: symbols are already trimmed, split and upper-cased; a send that fails is not made up for on the same socket.
- LifecycleImport.ReadLifecycle: malformed SQLite rows other than reason codes that are no texts.
- Reconciliation.ClassifyNumerics: numerics are decimals, so none is invalid.
- Reconciliation.CompareControlPlane: the expected and actual values inside a discrepancy, and checkpoint rows.
- CandidateSelection.Rank: how scores are computed, and the warnings about concentration.
- DecimalTexts.DecimalTextIsStable: Unicode white space, which trimming would also remove.
- Control routes, configuration, diagnostics, backtests and indicators.
