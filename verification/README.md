# Durable execution layer: a Dafny model

The trading bot keeps a set of small protocols between an unreliable exchange, a key/value
database and a process that may restart at any moment: an execution lease with a fencing token, a
registry of protective stops, one-shot exits, the reconciliation of orders from exchange snapshots,
a daily PnL ledger with its fill evidence, and a high-water mark that follows deposits and
withdrawals. Beside them stands a backtest that replays the strategy. This project models these
protocols and proves what they keep.

How they are modelled:

* An awaited database write commits, is refused, commits while its acknowledgement is lost, or is
  cut by a crash on either side of the commit (`Common.WriteOutcome`). Exchange replies are free
  parameters: any reply, an exception, or a crash at the await.
* Objects whose methods update their fields are classes (`LeaseTable`, `StopLifecycle`, `Ledger`,
  `ManagedOrder`, `OrderBook`, `Gate`, `DailyLedger`, `Store`, `Risk`). Each method is proved equal to
  a function on values; the theorems over whole runs are about those functions.
* These functions are in turn described from inputs and stored fields alone (`PostingExactly`,
  `TruthByFields`, `LineageDecides`, `ReadingByInputs` and others), so that no result rests on a function's
  own name.
* A run is a sequence of events of any length: process steps, crashes, reloads, passes, readings.
* Numbers are exact reals, hashes are injective constructors of the hashed values, timestamps are
  integers.

| file | what it models |
|---|---|
| `Common.dfy`, `Arithmetic.dfy` | write outcomes, options and results; facts about products and quotients |
| `ExecutionLease.dfy`, `ExecutionLeaseRuns.dfy` | the lease row, its holders, and interleavings of any number of processes |
| `StopRegistry.dfy`, `StopRuns.dfy`, `StopBlocks.dfy`, `StopCleanup.dfy` | protective-stop slots, their write-ahead registry, capacity blocks, and the cancel loops |
| `OneShotExits.dfy`, `OneShotPasses.dfy`, `OneShotOverlap.dfy`, `EntryGate.dfy` | full and partial exits with durable intents, also by overlapping processes, and the entry gate |
| `OrderState.dfy`, `OrderTruth.dfy`, `OrderReconcile.dfy`, `OrderGateRuns.dfy` | the order state machine driven by exchange snapshots, and the entry gate over runs |
| `LedgerStorage.dfy`, `DailyPnl.dfy`, `PnlReconcile.dfy`, `PnlMatching.dfy`, `PnlConservation.dfy`, `PnlRuns.dfy` | the daily PnL ledger: joins, checkpoints, which estimate a confirmed close corrects, and the sum |
| `FillEvidence.dfy` | fills that prove one position |
| `HighWaterMark.dfy`, `HighWaterFlows.dfy`, `CapitalFlow.dfy`, `CapitalFlowRuns.dfy`, `CapitalFlowRepeats.dfy` | the equity peak under readings, crashes, deposits and withdrawals |
| `ExecutionCosts.dfy`, `FundingNet.dfy`, `BacktestExit.dfy`, `Backtest.dfy`, `LookAhead.dfy` | the simulated trade and what it can know of the future |

## Where the code does less than its documentation says

Each promise is given with the condition under which the code keeps it, or with a run that breaks it.

* The lease excludes concurrent holders if and only if the processes have pairwise different owner
  ids. `EXECUTION_OWNER_ID` may be set to one value for two processes, which then renew each other's
  lease (`ExclusiveExactly`).
* A capacity block outlives the process if and only if its own write, or that of any later event of
  the process, reached the database: every write stores the whole registry
  (`BlockSurvivesCrashExactly`, `LaterWriteCarriesBlock`).
* Client ids are not fresh for every proven-terminal candidate. The generation of a slot starts again
  at zero when the trigger changed or the record ended as VERIFIED or FLAT_CLEANED, and rises by one
  otherwise (`RestartsExactly`). Over any run a new candidate gets an id allowed or proven dead
  before only if the slot lists it, and which dead id comes back is decided by trigger and generation
  alone (`RepeatedIsListed`, `DeadIdRepostedExactly`, `RepeatsExactly`). It happens with one trigger
  throughout and across two (`SameTriggerReposts`, `TerminalIdCanBeReposted`).
* An order's recorded fill can go down, and the fill reported with an order's end can be lost
  (`FillsForgottenExactly`, `FinalFillsLostExactly`).
* The hardened startup pass decides otherwise than the shared evaluator: a partial fill of an ended
  order becomes FILLED, a full fill beside a cancellation stays pending, an end without a fill keeps
  the fill recorded before. `HardenedAgreesExactly` says for every order and every status by order id
  when they agree; `HardenedDiffers` has one input for each of the three.
* A confirmed bare persist of the orders opens the entry gate whatever is pending. While an order is
  open the gate lacks its reason if and only if the last event that set the reason was such a persist,
  or a pass that found all orders terminal before this one opened (`OpenWhilePendingExactly`,
  `BarePersistOpens`).
* Two closes that match one estimate are both applied. The ledger is off by the surplus matches, and
  conserves PnL if and only if these sum to zero (`ConservationExactly`, `SampleMiscounts`); a close
  adds to the surplus if and only if a recorded adjustment already names its estimate
  (`OneMoreExactly`).
* An ordinary equity reading lowers the stored peak when the cached peak is behind the stored one,
  which a lost acknowledgement leaves behind (`OrdinaryFallsExactly`, `StaleExactly`).
* The stored peak can fall below the last equity used: exactly when a reading kept the cached peak
  while the stored one was below the equity it read. Only the lost acknowledgement of a lowering
  write, a withdrawal or a repair, leaves such a cache (`FallsShortExactly`, `BackedExactly`,
  `LostWithdrawalFallsShort`).
* A deposit raises the stored peak by its amount if and only if the known peak is not behind the
  stored one or the equity makes up for it, and it can even lower it; a withdrawal keeps the stored
  drawdown if and only if known and stored peak show the same loss (`DepositExactly`,
  `WithdrawalExactly`, `LostHighBreaksFlows`). Only the lost acknowledgement of a raising write leaves
  the known peak behind (`LeadsExactly`, `DepositsRaise`).
* A transfer is applied once for each event that makes its rebase durable without moving the cursor
  past it, and once more when the cursor does get past it; so it is applied again if and only if some
  event separates the two (`TimesApplied`, `AppliedAgainExactly`), which a healthy pass does if and
  only if the outcome it stops at is unpaired (`SeparatesExactly`).
* Reduce-only exits bypass the lease. An exit is submitted at most once in every run if and only if at
  most one process works on it, and only then is a known order id never overwritten (`OnceExactly`,
  `IdKeptExactly`); all its submissions carry one client id (`SubmissionsShareTheId`).
* A backtest trade can depend on a bar beyond its forty: if and only if it exits at the instant the
  last of them closes and the settlements of that instant do not cancel (`FortyBarsExactly`; through
  any bar `DeterminedExactly`; `FlatTradeLooksAhead` is one such trade).

## Model

| member | source | states |
|---|---|---|
| `ExecutionLease.LeaseTable.Acquire` | bot/execution_ownership.py:129-154 | one transaction against the row: refused while another owner's lease is live, the token kept on renewal and raised on every take-over, an unavailable authority changes nothing |
| `ExecutionLease.AcquiredByRow` | bot/execution_ownership.py:140-151 | refused exactly while a named other owner holds the row; a grant starts now, lasts the lease, keeps token and start of a holding it renews and takes the next token otherwise |
| `ExecutionLease.AcquireByOutcome` | bot/execution_ownership.py:137-154 | the row has the grant unless the transaction rolled back, the caller has it only if it committed |
| `ExecutionLease.ValidatedByRow` | bot/execution_ownership.py:156-184 | an ownership validates exactly while the row has its owner and token and is live; otherwise the first thing missing is the reason |
| `ExecutionLease.Engine.Publish` | bot/execution_ownership.py:91-113 | readiness is published only for a lease that has not run out, otherwise it is withdrawn |
| `ExecutionLease.PublishedByClock` | bot/execution_ownership.py:91-113 | what is published holds exactly from a publication before expiry until expiry |
| `ExecutionLease.Engine.Invalidate` | bot/execution_ownership.py:115-127 | withdraws readiness and expiry |
| `ExecutionLease.Heartbeat` | bot/execution_ownership.py:272-309 | the renewal loop is the fold of its beats: acquire, validate, publish, or withdraw on any failure |
| `ExecutionLease.BeatByInputs` | bot/execution_ownership.py:280-309 | a beat leaves the engine ready exactly when its transaction was available, committed and not refused, the row still showed the grant at the check, and the lease outlasts the publication |
| `ExecutionLease.HeartbeatEvidence` | bot/execution_ownership.py:280-309 | an engine that says it is valid published, in its last beat, an ownership that the row carried and that was live when checked and unexpired when published |
| `ExecutionLeaseRuns.FencedRun` | bot/execution_ownership.py:129-154 | in every interleaving the stored token never decreases and no token is issued to two owners, with arbitrary clocks |
| `ExecutionLeaseRuns.StepExactly` | bot/execution_ownership.py:91-184 | which step issues an ownership, which makes a process checked, and what sampling, giving up and a restart change |
| `ExecutionLeaseRuns.SupersededForever` | bot/execution_ownership.py:156-184 | an issued ownership the row no longer carries is refused in every later state |
| `ExecutionLeaseRuns.RowTakenExactly` | bot/execution_ownership.py:135-154 | the row passes to another owner if and only if a transaction that is not rolled back read its clock when the lease had run out, and then with the next token |
| `ExecutionLeaseRuns.BackingTransact` | bot/execution_ownership.py:135-154 | a transaction leaves every unexpired lease of another owner backed by the row, although its clock was read before the lock |
| `ExecutionLeaseRuns.BackingRun` | bot/execution_ownership.py:91-154 | over every run of different owners with one forward clock, every unexpired published lease is backed by the row, so no step takes the row before it runs out |
| `ExecutionLeaseRuns.PublishedLeaseValidates` | bot/execution_ownership.py:91-184 | an unexpired published lease is backed by the row: its validation succeeds at every instant before expiry |
| `ExecutionLeaseRuns.ExclusiveExactly` | bot/execution_ownership.py:15-16 | no two processes ever hold unexpired local leases together, if and only if owner ids are pairwise different or the lease length is not positive |
| `ExecutionLeaseRuns.SharedIdOverlaps` | bot/execution_ownership.py:142-151 | two processes with one owner id do hold the lease together |
| `StopRegistry.StopLifecycle.Load` | bot/conditional_stop_lifecycle.py:115-134 | reads the row once and the cache ever after |
| `StopRegistry.StopLifecycle.PersistRegistry` | bot/conditional_stop_lifecycle.py:137-154 | the cache already has the change whatever becomes of the row; success means the row has it too |
| `StopRegistry.PersistedByOutcome` | bot/conditional_stop_lifecycle.py:137-154 | cache and row after each way the write can end |
| `StopRegistry.StopLifecycle.Prepare` | bot/conditional_stop_lifecycle.py:220-368 | the whole candidate decision with both writes, equal to `AfterPrepare` |
| `StopRegistry.PostingExactly` | bot/conditional_stop_lifecycle.py:220-368 | a post is allowed exactly when a new candidate may be minted (none pending, or the pending one proven terminal) or the pending one retried (nothing shown fifteen seconds after the attempt), each with its confirmed write, and under which id |
| `StopRegistry.RefusedUnwritten` | bot/conditional_stop_lifecycle.py:239-299 | why a pending candidate is refused, in order, and that a refusal writes nothing |
| `StopRegistry.FailedWriteRefuses` | bot/conditional_stop_lifecycle.py:304-368 | a post that only its write prevents: refused without the lease, raised or died otherwise, with what the row then has |
| `StopRegistry.PostedIsRecorded` | bot/conditional_stop_lifecycle.py:303-356 | the record of a posted candidate, field by field, with every other slot as it was |
| `StopRegistry.MintedIsFresh` | bot/conditional_stop_lifecycle.py:320-356 | a minted record has no order and no count yet, keeps the owned ids, and lists its own |
| `StopRegistry.StopLifecycle.MarkVerified` | bot/conditional_stop_lifecycle.py:371-382 | marks the slot verified and releases a block |
| `StopRegistry.StopLifecycle.MarkCapacityBlocked` | bot/conditional_stop_lifecycle.py:385-397 | puts the slot back to pending and blocked |
| `StopRegistry.StopLifecycle.ClearCapacityIfRecovered` | bot/conditional_stop_lifecycle.py:400-414 | releases a block exactly below fifty observed stops, on a blocked record, with a confirmed write |
| `StopRegistry.UpdatesMean` | bot/conditional_stop_lifecycle.py:371-414 | the one record each of the three updates changes, and how, in the cache and in the row |
| `StopRegistry.StopLifecycle.CloseSymbol` | bot/conditional_stop_lifecycle.py:617-632 | closes every slot of a flat symbol, keeping its owned ids |
| `StopRegistry.CleanSlots` | bot/conditional_stop_lifecycle.py:619-628 | the loop closes exactly the records of the symbol |
| `StopRegistry.ClosedByFields` | bot/conditional_stop_lifecycle.py:617-632 | every record of the symbol under either name is closed and no other; without one nothing is written |
| `StopRuns.RunSound` | bot/conditional_stop_lifecycle.py:115-414 | the invariant of the registry over every run of operations, failed writes, crashes and reloads |
| `StopRuns.AllowedIsOwned` | bot/conditional_stop_lifecycle.py:337-368 | an id allowed to post was minted by that very slot and is listed in the row |
| `StopRuns.AllowedIdsStayDurable` | bot/conditional_stop_lifecycle.py:304-368 | an id is in the durable slot's owned ids when it is allowed to post, and after everything that follows |
| `StopRuns.OneUnconfirmedPerSlot` | bot/conditional_stop_lifecycle.py:239-368 | at most one posted id of a slot is unconfirmed, and the row shows it as pending |
| `StopRuns.UnconfirmedExactly` | bot/conditional_stop_lifecycle.py:239-414 | which ids are unconfirmed and which were ever allowed after an operation |
| `StopRuns.RetriesReuseTheId` | bot/conditional_stop_lifecycle.py:300-318 | while a posted id is unconfirmed only that id can be allowed again, unless a lookup proved it terminal |
| `StopBlocks.BlockedUntilReleased` | bot/conditional_stop_lifecycle.py:249-255 | a recorded block refuses posting through all runs and restarts until a releasing operation |
| `StopBlocks.RowBlockedExactly` | bot/conditional_stop_lifecycle.py:137-154 | over any run of non-releasing events the row ends up blocked if and only if it was, or a block held in the cache was stored by some write before the cache was lost |
| `StopBlocks.BlockSurvivesCrashExactly` | bot/conditional_stop_lifecycle.py:385-397 | over any such run and a final crash a block survives if and only if its own or a later write of the process reached the row, else the id may post again |
| `StopBlocks.LaterWriteCarriesBlock` | bot/conditional_stop_lifecycle.py:137-154 | a concrete run in which a refused block is made good by the verification of another slot |
| `StopRuns.RestartsExactly` | bot/conditional_stop_lifecycle.py:320-340 | a new candidate has generation zero if and only if the slot has no record, the trigger changed or the record ended VERIFIED or FLAT_CLEANED, else the next one; never the id just proven terminal |
| `StopRuns.RepeatedIsListed` | bot/conditional_stop_lifecycle.py:320-340 | over any run, an id allowed or proven dead before is minted again only if the slot lists it as owned |
| `StopRuns.DeadIdRepostedExactly` | bot/conditional_stop_lifecycle.py:320-340 | over any run, which proven-dead id a new candidate gets back: the listed one with the desired trigger and the generation due |
| `StopRuns.RepeatsExactly` | bot/conditional_stop_lifecycle.py:320-368 | from an empty registry with confirmed mints, a new candidate repeats an allowed id if and only if the slot lists it |
| `StopRuns.SameTriggerReposts` | bot/conditional_stop_lifecycle.py:320-340 | a concrete run on one trigger in which an id proven terminal is allowed to post again |
| `StopRuns.TerminalIdCanBeReposted` | bot/conditional_stop_lifecycle.py:178-180 | a concrete run in which a slot returns to an earlier trigger and its dead id is allowed to post again |
| `StopCleanup.InventoryMeaning` | bot/conditional_stop_lifecycle.py:453-492 | the superseded list is exactly the active stops of the slot's other ids; nothing foreign is in it |
| `StopCleanup.SameKindMeaning` | bot/conditional_stop_lifecycle.py:457-472 | which stops count as owned, external and of the same kind |
| `StopCleanup.UnknownMeaning` | bot/conditional_stop_lifecycle.py:482-485 | which owned stops are unknown to the slot |
| `StopCleanup.ActiveByFields` | bot/conditional_stop_lifecycle.py:453-472 | what the exchange fields make a waiting stop of the slot: not triggered, active, not done, on the closing side with the trigger of its kind |
| `StopCleanup.InventoryCounts` | bot/conditional_stop_lifecycle.py:514-534 | the reported counts are those of superseded and of external stops in the reading |
| `StopCleanup.CancelAll` | bot/conditional_stop_lifecycle.py:523-526 | cancels in order what has an id while the lease is valid |
| `StopCleanup.FindOwner` | bot/conditional_stop_lifecycle.py:503-512 | finds a record that owns the canonical id, if there is one |
| `StopCleanup.RetireSuperseded` | bot/conditional_stop_lifecycle.py:514-534 | cancels only superseded stops and only after the canonical was read as active; success describes the second reading |
| `StopCleanup.CleanupSuperseded` | bot/conditional_stop_lifecycle.py:495-534 | on any registry a run can reach, cancels only other ids of the canonical's own slot, with success if and only if the second reading shows the canonical and none of them |
| `StopCleanup.CleanupFlatSymbol` | bot/conditional_stop_lifecycle.py:537-633 | with every flatness proof cancels only BGX stops of the symbol, and closes its slots only when none is left |
| `StopCleanup.RunsAreReachable` | bot/conditional_stop_lifecycle.py:337-356 | the registry after any run is one the cleanup guarantees apply to |
| `EntryGate.Gate.Block` | bot/durable_execution.py:24-30 | a reason is added and the state is not ok |
| `EntryGate.Gate.Clear` | bot/durable_execution.py:33-36 | the state is ok again only when no reason is left |
| `EntryGate.OpensExactly` | bot/durable_execution.py:39-42 | entries are possible exactly without a pause, a pending partial exit, a durable reason, or an unsound ledger |
| `OneShotExits.SyncedMeansFlat` | bot/confirmed_rr_exit.py:73-88 | the accounting owner is called only for a filled order and a flat symbol |
| `OneShotExits.SyncedExactly` | bot/confirmed_rr_exit.py:32-88 | and it is called exactly when the order id is known from row, submission or lookup, the fill is confirmed, every size reads zero and the sync returns |
| `OneShotExits.FullOrderExactly` | bot/confirmed_rr_exit.py:41-69 | which order id a visit ends with, and that row and intent differ from before in nothing else |
| `OneShotExits.FullReadyByPrices` | bot/confirmed_rr_exit.py:35-52 | a full exit is due exactly at twice the distance of the stop, for both directions |
| `OneShotExits.FullSubmitsExactly` | bot/confirmed_rr_exit.py:32-58 | when the one submission is made, its id, and the row it had then |
| `OneShotExits.HalfQtyIsLargest` | bot/durable_partial_exit.py:35-42 | the partial quantity is the largest multiple of the step within half the original quantity |
| `OneShotExits.PlanByPrices` | bot/durable_partial_exit.py:24-43 | without an intent: skipped past the first target or below risk and three basis points, an error for unusable numbers, else half the position if that is something and not all of it |
| `OneShotExits.PartialSubmitsExactly` | bot/durable_partial_exit.py:17-49 | when the one submission of the partial exit is made, and that nothing else happens without one |
| `OneShotExits.FilledExactly` | bot/durable_partial_exit.py:52-65 | when the fill of an intent becomes recorded |
| `OneShotExits.RemainingMeans` | bot/durable_partial_exit.py:67-84 | the rows read as flat, as this much, or as nothing reliable: one row at most, known unit, finite sizes, no positive size that converts to nothing |
| `OneShotExits.VisitFollowsRows` | bot/durable_partial_exit.py:66-100 | a visit of a filled intent, from the rows: flat is released, an open size becomes the quantity and stays pending unless protected, unreliable rows keep everything pending |
| `OneShotExits.SubmittedAdvances` | bot/durable_partial_exit.py:45-51 | the first write precedes the one submission, which the row still describes afterwards |
| `OneShotExits.PartialVisitAdvances` | bot/durable_partial_exit.py:13-103 | one visit touches only its own row, which only fills in blanks and sets marks |
| `OneShotExits.FullVisitAdvances` | bot/confirmed_rr_exit.py:30-91 | the same for the full exit |
| `OneShotExits.NotPendingMeansSettled` | bot/durable_partial_exit.py:85-100 | a symbol left out of the pending set has no intent, was read flat (no row, or one row of known unit and size zero), or is durably protected |
| `OneShotExits.StopMovesAfterProtection` | bot/durable_partial_exit.py:91-99 | the local stop moves only to the entry, after a confirmed stop, a filled order and the recorded protection |
| `OneShotExits.RowsOnlyAdvance` | bot/confirmed_rr_exit.py:55-69 | over any run ids and quantity are fixed, a known order id is never overwritten, marks are never lost |
| `OneShotExits.NeverResubmitted` | bot/confirmed_rr_exit.py:56-64 | once an intent is recorded no later visit submits its key |
| `OneShotExits.AtMostOnce` | bot/confirmed_rr_exit.py:30-91 | over any run of visits by one process at a time each key is submitted at most once, its intent was durable before the call, and protected implies filled implies order id known |
| `OneShotOverlap.AloneIsSubmitted` | bot/confirmed_rr_exit.py:41-64 | the interleaved steps of a process left alone are the submission of the visit, with the write of the order id |
| `OneShotOverlap.AloneIsRecovered` | bot/confirmed_rr_exit.py:65-69 | and its recovery of an unknown order id |
| `OneShotOverlap.TurnsSubmitOnce` | bot/confirmed_rr_exit.py:41-64 | processes of which only one is between load and submission at a time submit a key at most once, whatever writes fail |
| `OneShotOverlap.RaceSubmitsTwice` | bot/kucoin.py:1078-1084 | from any state two processes that have both yet to submit can both do it |
| `OneShotOverlap.OnceExactly` | bot/execution_ownership.py:1-5 | every run submits a key at most once if and only if there is at most one process |
| `OneShotOverlap.SubmissionsShareTheId` | bot/kucoin.py:919-936 | in every interleaving all submissions of a key carry the same client id, whatever the quantities |
| `OneShotOverlap.IdChangesExactly` | bot/confirmed_rr_exit.py:55-69 | a step changes a known order id if and only if it is the durable first write of a process that had found no row, or the durable note of another id by one that held the row before |
| `OneShotOverlap.TurnsKeepId` | bot/confirmed_rr_exit.py:55-69 | processes of which only one is in flight at a time never overwrite a known order id |
| `OneShotOverlap.IdKeptExactly` | bot/confirmed_rr_exit.py:55-69 | a known order id is never overwritten in any run if and only if there is at most one process |
| `OneShotPasses.Ledger.Save` | bot/confirmed_rr_exit.py:25-27 | an unconfirmed write raises, whether or not the row changed |
| `OneShotPasses.Ledger.SubmitOnce` | bot/durable_partial_exit.py:45-51 | intent, submission, order id, with a crash or exception at every await |
| `OneShotPasses.Ledger.RecoverOrder` | bot/confirmed_rr_exit.py:65-69 | an unknown order id is looked up by client id, never resubmitted |
| `OneShotPasses.Engine.VisitPartial` | bot/durable_partial_exit.py:15-103 | one symbol of the pass on the engine's own fields, with the position and both symbol sets |
| `OneShotPasses.Engine.FillAndRepair` | bot/durable_partial_exit.py:52-100 | the retryable part of the visit |
| `OneShotPasses.Engine.RepairStop` | bot/durable_partial_exit.py:66-100 | resize, repair the stop once, release the symbol |
| `OneShotPasses.CheckPartials` | bot/durable_partial_exit.py:13-103 | every position is visited in turn until a visit ends the process; after a whole pass every symbol outside the pending set has no intent, was read flat by its own rows, or is protected, so the entry gate is closed while a partial exit is unfinished |
| `OneShotPasses.CheckFullExits` | bot/confirmed_rr_exit.py:30-91 | every position is visited in turn until a visit ends the process; symbols with a pending partial are left alone, rows are kept, and accounting is told of exactly the symbols whose visit synced |
| `OneShotPasses.VisitFull` | bot/confirmed_rr_exit.py:32-91 | one symbol of the full-exit pass |
| `OrderState.PathsGoForward` | bot/order_state.py:44-57 | along legal transitions an order never goes back and terminal states have no way out |
| `OrderState.LegalMeans` | bot/order_state.py:44-57 | the transition table, state by state of arrival |
| `OrderState.ManagedOrder.Apply` | bot/order_state.py:95-166 | a forbidden transition raises and changes nothing; the late REST acknowledgement is a no-op on the state |
| `OrderState.TransitionExactly` | bot/order_state.py:95-166 | when a transition is refused, when it is a late acknowledgement, and what one that is made changes |
| `OrderTruth.ApplyTruth` | bot/durable_live_reconciliation.py:84-206 | every snapshot is refused without effect or applied through legal transitions only, with the state, id and fill its fields dictate |
| `OrderTruth.TruthByFields` | bot/durable_live_reconciliation.py:84-206 | from order and snapshot alone: what an active, a filled, a cancelled, a rejected and an unknown snapshot make of an order in each state |
| `OrderTruth.RefusedExactly` | bot/durable_live_reconciliation.py:96-121 | a snapshot is accepted exactly if its ids fit and its fill is a number in range |
| `OrderTruth.ApplyEnd` | bot/durable_live_reconciliation.py:164-206 | the branches for an order that ended |
| `OrderTruth.ApplyActive` | bot/durable_live_reconciliation.py:130-159 | the branch for an active order |
| `OrderTruth.Announce` | bot/durable_live_reconciliation.py:165-174 | an unannounced order is first brought to SUBMITTED |
| `OrderTruth.RejectTerminal` | bot/durable_live_reconciliation.py:71-81 | the end of a rejected order, from every state |
| `OrderTruth.CancelTerminal` | bot/durable_live_reconciliation.py:54-68 | the end of a cancelled order, from every state |
| `OrderTruth.TerminalAbsorbs` | bot/durable_live_reconciliation.py:84-206 | a terminal order is unchanged by any sequence of snapshots |
| `OrderTruth.FilledMeansFullFill` | bot/durable_live_reconciliation.py:164-183 | FILLED is entered only on a terminal snapshot whose fill plus tolerance reaches the request |
| `OrderTruth.OrderIdIsFixed` | bot/durable_live_reconciliation.py:105-109 | a known exchange order id is the same after any sequence of snapshots |
| `OrderTruth.TerminalTruthTerminates` | bot/durable_live_reconciliation.py:122-206 | terminal truth that is not active leaves the order terminal |
| `OrderTruth.ApplyTwice` | bot/durable_live_reconciliation.py:84-206 | applying a snapshot twice is applying it once |
| `OrderTruth.FillsForgottenExactly` | bot/durable_live_reconciliation.py:62-67 | for an order reached by any snapshots, the recorded fill goes down if and only if it is partially filled and an accepted terminal snapshot reports less, unless that one says rejected without a full fill |
| `OrderTruth.FinalFillsLostExactly` | bot/durable_live_reconciliation.py:71-81 | for an order reached by any snapshots, the fill reported with the end is lost if and only if it is not a full fill and the order is rejected or was never announced |
| `OrderReconcile.OrderBook.PersistOrders` | bot/durable_execution.py:150-170 | stores the orders and opens the gate, or closes it instead of raising |
| `OrderReconcile.PersistByOutcome` | bot/durable_execution.py:150-170 | snapshot and reason after each way the write can end |
| `OrderReconcile.OrderBook.PollAll` | bot/durable_live_reconciliation.py:239-271 | the loop applies each order's own snapshot, notices any change, and counts what is left open |
| `OrderReconcile.OrderBook.ReconcilePending` | bot/durable_live_reconciliation.py:209-286 | orders, snapshot and gate end as `AfterPass` says; true means nothing is pending, a failed pass leaves the gate closed |
| `OrderReconcile.PassByInputs` | bot/durable_live_reconciliation.py:209-286 | a pass that may poll asks about every open order, stores only changes, and leaves the reason off exactly with nothing open and nothing unsaved |
| `OrderReconcile.OrderBook.ReconcileOrders` | bot/durable_execution.py:343-394 | startup by client id: success if and only if the gate has no order reason, and then all is settled and stored |
| `OrderReconcile.StartupByInputs` | bot/durable_execution.py:343-394 | the first startup pass stores what it found and succeeds exactly connected, with everything terminal, and a confirmed write |
| `OrderReconcile.OrderBook.ReconcileHardened` | bot/durable_reconcile_hardening.py:66-191 | startup with the second pass ends as `AfterHardened` says: success means every order terminal and stored, otherwise the entry gate is closed; an open order without an id, unproven and unanswered, stays as it is with the gate closed |
| `OrderReconcile.HardenOne` | bot/durable_reconcile_hardening.py:79-150 | one order of the second pass: proven undispatched is FAILED, an inactive status by order id ends it, everything else is left alone |
| `OrderReconcile.HardenedByInputs` | bot/durable_reconcile_hardening.py:79-150 | so for every order, proof and status |
| `OrderReconcile.HardenedKeepsUnresolved` | bot/durable_reconcile_hardening.py:66-191 | through both passes an unresolved order is unchanged and blocks, and a proven one without an answer ends FAILED |
| `OrderReconcile.SecondByInputs` | bot/durable_reconcile_hardening.py:71-191 | the second pass as a whole: each order by its evidence, stored when changed, open only with nothing open and nothing unsaved |
| `OrderReconcile.HardenedIsBoth` | bot/durable_reconcile_hardening.py:66-69 | it runs exactly when the first pass failed |
| `OrderReconcile.HardenedAgreesExactly` | bot/durable_reconcile_hardening.py:79-150 | for every order with an id and every status by that id, when the second pass and the shared evaluator agree |
| `OrderReconcile.HardenedDiffers` | bot/durable_reconcile_hardening.py:124-150 | a partial fill promoted, a cancelled full fill left pending, an outdated fill kept |
| `OrderGateRuns.OpensOnlyWhenSettled` | bot/durable_live_reconciliation.py:209-286 | a pass or a startup that sets the reason and leaves the gate open has left no order open |
| `OrderGateRuns.OpenWhilePendingExactly` | bot/durable_execution.py:150-170 | over any run, while an order is open the reason is absent if and only if the last event that set it was a confirmed bare persist, or a pass that found all settled before the order opened |
| `OrderGateRuns.BarePersistOpens` | bot/protection_readiness.py:217-227 | a concrete run: a pass closes the gate on an unresolved order and the persist of another change opens it |
| `LedgerStorage.MergeInto` | bot/daily_pnl_storage.py:58-65 | the in-place merge succeeds if and only if shared fields of shared events agree, and is then the join |
| `LedgerStorage.Load` | bot/daily_pnl_storage.py:43-69 | the loop over canonical and legacy ledgers equals `LoadedFrom` |
| `LedgerStorage.LoadExactly` | bot/daily_pnl_storage.py:43-69 | loading succeeds if and only if all present ledgers are valid and agree pairwise, and yields their join |
| `LedgerStorage.LoadOrderIndependent` | bot/daily_pnl_storage.py:49-65 | the same ledgers found under any keys load the same events or all fail |
| `LedgerStorage.ValidByFields` | bot/daily_pnl_storage.py:30-40 | what a valid ledger is, field by field |
| `DailyPnl.AddTrades` | bot/durable_daily_pnl.py:332-345 | the loop of the checkpoint over the trades of the day |
| `DailyPnl.EventFields` | bot/durable_daily_pnl.py:36-54 | what the ledger keeps of a trade |
| `DailyPnl.TradeFailsExactly` | bot/durable_daily_pnl.py:332-345 | a trade fails the checkpoint exactly when its PnL is unusable or the ledger has another PnL, source or time for it |
| `DailyPnl.TradeAdds` | bot/durable_daily_pnl.py:332-345 | otherwise the ledger gets the fields it lacked and keeps all others |
| `DailyPnl.RealizedByTrades` | bot/durable_daily_pnl.py:192-199 | in the realized PnL every trade of the day replaces what is cached under its token |
| `DailyPnl.CheckpointIdempotent` | bot/durable_daily_pnl.py:332-345 | a checkpoint repeated in any order changes nothing |
| `DailyPnl.ExtraCountsOnce` | bot/durable_daily_pnl.py:332-345 | a trade counts once whether passed as extra, in the stats, or both |
| `DailyPnl.CheckpointKeepsValid` | bot/durable_daily_pnl.py:326-345 | a successful checkpoint is a valid ledger again |
| `DailyPnl.RealizedEqualsPersisted` | bot/durable_daily_pnl.py:192-199 | after a checkpoint the realized PnL equals the persisted sum |
| `PnlReconcile.MatchingSeesTradesOnly` | bot/durable_daily_pnl.py:66-121 | which estimate a close matches does not depend on adjustments already applied |
| `PnlReconcile.OrderAndRepetitionIrrelevant` | bot/durable_daily_pnl.py:124-189 | closes applied in any order and with any repetition give one ledger |
| `PnlConservation.LedgerIsCorrected` | bot/durable_daily_pnl.py:172-189 | the ledger is off its estimates by confirmed minus estimated PnL of each newly matched close, with no condition on the matches |
| `PnlConservation.ConservationExactly` | bot/durable_daily_pnl.py:124-189 | the ledger sums to the unmatched events plus the confirmed PnL of the matched closes, less the surplus matches; it conserves if and only if the surplus is zero |
| `PnlConservation.Conservation` | bot/durable_daily_pnl.py:172-189 | with distinct matches it conserves |
| `PnlConservation.NamedExactly` | bot/durable_daily_pnl.py:176-189 | after a batch the adjustments name exactly the estimates its closes matched |
| `PnlConservation.OneMoreExactly` | bot/durable_daily_pnl.py:162-175 | one more close adds its estimate to the surplus if and only if a recorded adjustment already names it |
| `PnlConservation.DoubleMatchMiscounts` | bot/durable_daily_pnl.py:162-175 | two closes on one estimate leave the sum off by that estimate |
| `PnlConservation.SampleMiscounts` | bot/durable_daily_pnl.py:66-121 | a concrete ledger: closes of 4 and 7 within the window of one estimate of 5 leave 6 |
| `PnlConservation.ConflictExactly` | bot/durable_daily_pnl.py:274-278 | after any batch a close fails if and only if a stored adjustment or an earlier close of the same id says otherwise, and then alters nothing |
| `PnlConservation.ChangedValueConflicts` | bot/durable_daily_pnl.py:274-278 | a recorded close with another confirmed value fails if and only if the value differs; the ledger stays either way |
| `PnlRuns.RunKeepsLedger` | bot/durable_daily_pnl.py:230-345 | over any mixture of checkpoints, confirmed closes and legacy merges the ledger stays valid and keeps adjustments apart from trades |
| `PnlRuns.RunSum` | bot/durable_daily_pnl.py:172-345 | over any mixture of checkpoints and confirmed closes the sum moves by each trade once and by confirmed minus estimated PnL once for each close id |
| `PnlRuns.LoadingExactly` | bot/daily_pnl_storage.py:49-65 | a legacy ledger is added field by field if and only if it agrees |
| `PnlReconcile.DailyLedger.Checkpoint` | bot/durable_daily_pnl.py:305-367 | an unusable ledger or trade changes nothing and closes the gate; otherwise row, cache and gate exactly by whether the merged ledger was stored already and how its write ends |
| `PnlReconcile.DailyLedger.ReconcileClose` | bot/durable_daily_pnl.py:230-302 | corrects the estimate that `PnlMatching` names, with row, cache and gate exactly by how the write ends; no match leaves everything alone; an unreadable time, an unusable ledger and a contradiction only close the gate |
| `PnlMatching.LineageDecides` | bot/durable_daily_pnl.py:94-158 | the one estimate of the symbol that carries the close's only opening order is the one corrected, whatever the times |
| `PnlMatching.UnclearLineageIsRefused` | bot/durable_daily_pnl.py:149-160 | a single opening order that several estimates carry, or none while another estimate has one, corrects nothing |
| `PnlMatching.TimeDecides` | bot/durable_daily_pnl.py:162-171 | otherwise a correction is made if and only if exactly one estimate of the symbol closed within two minutes, and of that one |
| `PnlMatching.UnusableIsRefused` | bot/durable_daily_pnl.py:131-141 | a close without id, number or time corrects nothing |
| `PnlMatching.OnlyEstimatesAreCorrected` | bot/durable_daily_pnl.py:66-91 | only a local estimate of the close's symbol is ever named; the adjustment has its value, the confirmed one and the difference, and no other event changes |
| `PnlMatching.SymbolNames` | bot/durable_daily_pnl.py:57-63 | which contract names are one symbol |
| `FillEvidence.RecentComplete` | bot/accounting_fill_link.py:26-67 | accepts exactly the complete lists |
| `FillEvidence.CompleteByParts` | bot/accounting_fill_link.py:26-67 | what completeness is: clean fills, a running balance that reaches zero only at the end, both ends at the position's times, recorded prices and fees |
| `FillEvidence.CleanByFields` | bot/accounting_fill_link.py:36-44 | which fill can belong to the position |
| `FillEvidence.SumsByFill` | bot/accounting_fill_link.py:60-64 | quantity, cash and fees grow by each fill on its own side |
| `FillEvidence.PriceByCash` | bot/accounting_fill_link.py:59-63 | the price tolerance, in cash |
| `FillEvidence.FeesBySum` | bot/accounting_fill_link.py:64-65 | the fee tolerance |
| `FillEvidence.CompleteIsOneEpisode` | bot/accounting_fill_link.py:36-54 | every proper prefix of a complete list is an open position, and opened equals closed quantity |
| `FillEvidence.CompleteCash` | bot/accounting_fill_link.py:59-63 | its cash differs from quantity times the price difference by at most two price tolerances on the quantity |
| `FillEvidence.CheckExecutions` | bot/accounting_fill_link.py:159-202 | reconciles exactly the complete lists whose opening orders are known, with their ids, contracts and fees |
| `FillEvidence.AddRow` | bot/accounting_fill_link.py:87-93 | fails if and only if the row has no order or is a second version of a trade |
| `FillEvidence.AddRows` | bot/accounting_fill_link.py:121-128 | the loop over one reply records all its rows or fails on a conflict |
| `FillEvidence.CollectRecent` | bot/accounting_fill_link.py:80-94 | succeeds if and only if the window's rows do not conflict, and lists exactly these, each trade once, in order |
| `FillEvidence.RecentFills` | bot/accounting_fill_link.py:70-95 | rows are returned if and only if the position is recent and the window's rows, each trade once and in order, prove it |
| `FillEvidence.PagedFills` | bot/accounting_fill_link.py:105-133 | succeeds if and only if some number of agreeing pages holds as many trades as they declare, and lists exactly those |
| `FillEvidence.CoveredByPages` | bot/accounting_fill_link.py:107-133 | what covering pages are: numbered from one, agreeing on at most ten pages and on a count, as many as they declare, with that many trades on them and no conflict |
| `FillEvidence.Fills` | bot/accounting_fill_link.py:98-133 | the fast path where it proves the position, else complete pages |
| `FillEvidence.IndexOrders` | bot/accounting_fill_link.py:147-153 | a duplicate order id is an error if and only if two eligible orders share it |
| `FillEvidence.CanonicalNames` | bot/accounting_fill_link.py:17-18 | which symbol names are one |
| `FillEvidence.Reconcile` | bot/accounting_fill_link.py:136-205 | which verdict is given, each exactly when: overlapping, no bot order under either name, duplicate ids, unproved, opened by a foreign order, or the bot's with its ids, contracts and fees |
| `FillEvidence.ReconcilePosition` | bot/accounting_fill_link.py:98-205 | the same with the executions it reads: reconciled if and only if the position stands alone, no order id is ambiguous, and the evidence proves it and was opened by the bot; after the fast path unconfirmed only for a duplicate id |
| `HighWaterMark.Store.SavePeak` | bot/atomic_key_value.py:16-64 | peak and provenance change together or not at all |
| `HighWaterMark.Risk.ApplyPeak` | bot/drawdown_persistence.py:75-82 | the process's peak is lowered only when allowed; drawdown follows it |
| `HighWaterMark.Risk.RestoreUpdate` | bot/drawdown_persistence.py:120-182 | one equity reading with its write and its crash, equal to `ReadingPlan` carried out |
| `HighWaterMark.ReadingByInputs` | bot/drawdown_persistence.py:120-172 | from known peak and equity alone: bootstrap, the two repairs, the implausible ratio, a new high, or no write |
| `HighWaterMark.Risk.Rebase` | bot/drawdown_persistence.py:185-228 | one rebase for a cash flow, equal to `FlowPlan` carried out |
| `HighWaterMark.FlowByInputs` | bot/drawdown_persistence.py:185-214 | from known peak and flow alone: a deposit adds its amount, a withdrawal scales by the equities around it, neither below the equity, and what is rejected |
| `HighWaterMark.CarriedByOutcome` | bot/drawdown_persistence.py:101-117 | cache, peak and provenance after each way the write can end |
| `HighWaterMark.DepositRaises` | bot/drawdown_persistence.py:201-204 | a deposit raises the peak the process knows by at least its amount and keeps the loss from it |
| `HighWaterFlows.DepositExactly` | bot/drawdown_persistence.py:185-228 | a durable deposit raises the stored peak by its amount if and only if the known peak is not behind it or the equity makes up for it; when it lowers the stored peak; when it keeps the stored loss |
| `HighWaterFlows.LeadsExactly` | bot/drawdown_persistence.py:101-117 | a step leaves the cached peak behind the stored one if and only if it is a raising write whose acknowledgement is lost |
| `HighWaterFlows.DepositsRaise` | bot/drawdown_persistence.py:185-228 | over any run in which no raising write was lost a durable deposit raises the stored peak by at least its amount |
| `HighWaterMark.WithdrawalKeepsDrawdown` | bot/drawdown_persistence.py:205-212 | a withdrawal seen at its post-flow equity leaves the drawdown from the peak the process knows as it was |
| `HighWaterFlows.WithdrawalExactly` | bot/drawdown_persistence.py:205-212 | a durable one leaves the drawdown from the stored peak as it was if and only if known and stored peak are one or both are no higher than the equity before |
| `HighWaterFlows.FlowsKeepLoss` | bot/drawdown_persistence.py:185-228 | over any run without lost acknowledgements deposits keep the stored loss and withdrawals the stored drawdown |
| `HighWaterFlows.LostHighBreaksFlows` | bot/drawdown_persistence.py:86-89 | concrete runs after a lost high of 120: a deposit lowers the stored peak to 110, a withdrawal changes the stored drawdown |
| `HighWaterMark.StaleExactly` | bot/drawdown_persistence.py:101-117 | the cache becomes stale if and only if a write commits unacknowledged over a different cached peak |
| `HighWaterMark.ReadingLowersExactly` | bot/drawdown_persistence.py:120-172 | a reading lowers the stored peak if and only if it repairs a signature or raises a cached peak that is behind |
| `HighWaterMark.StaleCacheLowersPeak` | bot/drawdown_persistence.py:86-90 | a concrete run in which the stored peak of 120 falls to 110 |
| `HighWaterMark.AttestedRun` | bot/drawdown_persistence.py:101-117 | through every run the durable provenance names the durable peak |
| `HighWaterMark.ProvenanceExplains` | bot/hwm_provenance.py:31-59 | a new provenance names the peak it replaced and why, and only a repair or a withdrawal lowers what was known |
| `HighWaterMark.ShortStep` | bot/drawdown_persistence.py:162-173 | after an operation carried through the stored peak is below its equity if and only if it kept the cached peak while the stored one was below that equity |
| `HighWaterMark.FallsShortExactly` | bot/drawdown_persistence.py:86-173 | over any run the stored peak ends below the last equity used if and only if that use kept the cached peak while the stored one was below it |
| `HighWaterMark.BackedExactly` | bot/drawdown_persistence.py:101-117 | a step leaves the cached peak above the stored one if and only if it is a lowering write whose acknowledgement is lost |
| `HighWaterMark.PeakCoversLastEquity` | bot/drawdown_persistence.py:162-173 | over any run with flows, crashes, refusals and lost acknowledgements of raising writes, the stored peak is at least the last equity used |
| `HighWaterMark.LostWithdrawalFallsShort` | bot/drawdown_persistence.py:205-228 | a concrete run: a withdrawal whose reply is lost and a reading of 80 leave a stored peak of 50 |
| `HighWaterMark.OrdinaryFallsExactly` | bot/drawdown_persistence.py:162-170 | in any run of readings and restarts, outside the signatures and whatever the writes do, the stored peak falls at a step if and only if a durable reading lies between a stale cached peak and the stored one |
| `HighWaterMark.OrdinaryNeverLowers` | bot/drawdown_persistence.py:162-170 | so it never falls while no acknowledgement is lost |
| `CapitalFlow.FetchTransfers` | bot/capital_flow_reconciliation.py:82-109 | exactly the transfers that some row records, with its direction, amount and equities, each as often as rows record it, in ledger order |
| `CapitalFlow.NormalizedRecords` | bot/capital_flow_reconciliation.py:50-79 | which transfer a row records: completed, in or out, with amount, equity, offset and time, the equity before it on the right side |
| `CapitalFlow.NewestMatch` | bot/capital_flow_reconciliation.py:137-139 | the newest transfer whose equity is still the account's, if there is one |
| `CapitalFlow.MatchesByTolerance` | bot/capital_flow_reconciliation.py:112-116 | matching is within two cents or a thousandth of the account |
| `CapitalFlow.ApplyOne` | bot/capital_flow_reconciliation.py:181-193 | rebase and cursor as two writes |
| `CapitalFlow.AppliedByOutcome` | bot/capital_flow_reconciliation.py:181-193 | mark, record and cursor after each way the two writes can end |
| `CapitalFlow.ApplyPending` | bot/capital_flow_reconciliation.py:178-194 | the loop over the pending transfers, stopped by the first failure |
| `CapitalFlow.LoopTrace` | bot/capital_flow_reconciliation.py:178-194 | the loop as its successive worlds, each made from the one before, up to the first that did not go through |
| `CapitalFlow.PendingByOffset` | bot/capital_flow_reconciliation.py:178 | pending are exactly the transfers above the cursor, as often as fetched, in order |
| `CapitalFlow.ReconcileFlows` | bot/capital_flow_reconciliation.py:119-202 | one whole pass over the transfers the rows record, with the first installation, and how many it applied |
| `CapitalFlow.PassByInputs` | bot/capital_flow_reconciliation.py:119-178 | when a pass does nothing, what it does with a cursor, and that the first installation applies the newest match or none and moves the cursor to the newest offset |
| `CapitalFlowRuns.CommittedAll` | bot/capital_flow_reconciliation.py:178-194 | a confirmed pass applies every transfer above the cursor, once, in order, and ends at the last |
| `CapitalFlowRuns.Progress` | bot/capital_flow_reconciliation.py:180-194 | any pass gets through a prefix, with the cursor behind by at most one transfer |
| `CapitalFlowRuns.BootstrapAppliesAtMostOne` | bot/capital_flow_reconciliation.py:137-171 | the first installation applies at most the newest match and moves the cursor to the newest offset |
| `CapitalFlowRuns.AppliedAtMostOnce` | bot/capital_flow_reconciliation.py:119-202 | without a separated write the applied transfers are strictly in ledger order and the cursor only grows |
| `CapitalFlowRuns.AppliedExactlyOnce` | bot/capital_flow_reconciliation.py:178-194 | a transfer above the cursor, visible to one confirmed pass, is applied once in the whole run |
| `CapitalFlowRuns.NothingBelowCursor` | bot/capital_flow_reconciliation.py:168-178 | whatever crashes, nothing at or below a cursor is applied after it |
| `CapitalFlowRepeats.TimesApplied` | bot/capital_flow_reconciliation.py:178-194 | over any run from a stored cursor whose ledgers show the transfer before later ones, it is applied once per event that separates its rebase from the cursor, and once more when the cursor passes it |
| `CapitalFlowRepeats.AppliedAgainExactly` | bot/capital_flow_reconciliation.py:178-194 | once the cursor is past it, it was applied more than once if and only if some event of the run separated it |
| `CapitalFlowRepeats.SeparatesExactly` | bot/capital_flow_reconciliation.py:181-193 | a healthy pass separates a transfer if and only if it stops there with an unpaired outcome |
| `CapitalFlowRepeats.ConfirmedAppliesExactly` | bot/capital_flow_reconciliation.py:178-194 | a confirmed pass that sees a transfer applies it if and only if it is above the cursor, and takes the cursor past it |
| `CapitalFlowRepeats.OnlyUnpairedSeparates` | bot/capital_flow_reconciliation.py:181-193 | events with paired writes separate nothing |
| `CapitalFlowRepeats.OnceAcrossRestartExactly` | bot/capital_flow_reconciliation.py:181-193 | any ledger across a failed pass, a restart and a confirmed pass is applied once if and only if the writes the first pass stopped at were paired, else that one transfer is applied twice |
| `CapitalFlowRepeats.SeparatedDepositCountsTwice` | bot/capital_flow_reconciliation.py:181-193 | a deposit of 50 cut between its writes raises a mark of 100 to 200 |
| `CapitalFlowRepeats.RetryAfterLostReply` | bot/capital_flow_reconciliation.py:181-193 | a lost reply alone leaves the mark as if the transfer had been applied once |
| `ExecutionCosts.FillIsAdverse` | bot/kucoin_execution_model.py:44-56 | buys never pay less and sales never receive more than the price |
| `ExecutionCosts.FillExactly` | bot/kucoin_execution_model.py:44-56 | which side pays slippage on top and which has it taken off |
| `ExecutionCosts.FeeFraction` | bot/kucoin_execution_model.py:59-75 | the fee loop |
| `ExecutionCosts.FeesByLegs` | bot/kucoin_execution_model.py:66-75 | what each leg adds to the fees |
| `ExecutionCosts.FundingFraction` | bot/kucoin_execution_model.py:78-116 | the funding loop with its count |
| `ExecutionCosts.FundingBySettlement` | bot/kucoin_execution_model.py:96-116 | which settlements are charged, to whom, on which price and on which part of the position |
| `ExecutionCosts.GrossAtLeast` | bot/backtest.py:369-373 | legs closed no worse than a price return no less than the whole weight at that price |
| `ExecutionCosts.GrossActsAsOne` | bot/backtest.py:369-373 | the return of legs is that of one exit at the weighted price |
| `ExecutionCosts.FeesActAsOne` | bot/kucoin_execution_model.py:69-75 | so are the fees |
| `ExecutionCosts.FundingIsLocal` | bot/kucoin_execution_model.py:102-116 | funding depends on no settlement and no price after the exit |
| `ExecutionCosts.FundingIsZeroSum` | bot/kucoin_execution_model.py:99-116 | long and short funding over the same time cancel out, charge by charge |
| `ExecutionCosts.LongPaysPositiveRates` | bot/kucoin_execution_model.py:90-114 | with no negative rate a long pays, and pays something if and only if a positive rate is charged |
| `FundingNet.ByInstant` | bot/kucoin_execution_model.py:99-116 | funding is that of all other instants plus one share at the net rate of an instant |
| `FundingNet.SameWhereNetted` | bot/kucoin_execution_model.py:99-116 | prices that agree wherever the rates of an instant do not cancel give the same funding |
| `FundingNet.DiffersAtOneInstant` | bot/kucoin_execution_model.py:99-116 | prices that differ at one instant whose rates do not cancel give different funding |
| `BacktestExit.SimulateExit` | bot/backtest.py:289-362 | the exit loop equals the exit defined by first touches |
| `BacktestExit.TouchedByPrice` | bot/backtest.py:297-308 | a bar touches a level exactly when some price of it is at or beyond the level |
| `BacktestExit.PartialExactly` | bot/backtest.py:285-287 | when a trade has a partial target, and which targets it then has |
| `BacktestExit.InstantsOf` | bot/backtest.py:43-51 | seconds and milliseconds, and when a bar closes |
| `BacktestExit.ExitClosesAll` | bot/backtest.py:364-367 | every exit closes exactly the whole position, so the guard never fires |
| `BacktestExit.StopWins` | bot/backtest.py:305-339 | a bar that touches stop and target ends as a loss or a break-even, and each result had its touch |
| `BacktestExit.StopBeatsTarget` | bot/backtest.py:309-314 | the first bar that touches the original stop is a full loss whatever else it touches |
| `BacktestExit.LabelMatchesLegs` | bot/backtest.py:309-362 | the result tells the legs |
| `BacktestExit.GrossIsBracketed` | bot/backtest.py:281-373 | with ordered levels the gross return lies between full exits at the slipped stop and at the slipped last target |
| `Backtest.BisectRight` | bot/backtest.py:69-70 | splits sorted timestamps at an instant |
| `Backtest.WindowIsLastClosed` | bot/backtest.py:58-72 | the window is exactly the last closed candles |
| `Backtest.SignalNeedsHistory` | bot/backtest.py:248-272 | a signal needs 30, 10 and 5 closed candles and the minimum reward ratio |
| `Backtest.SignalExactly` | bot/backtest.py:248-272 | there is a signal exactly when enough candles closed and the analyser finds one with the least reward in the last sixty, twenty and fifteen |
| `Backtest.SimulateTrade` | bot/backtest.py:248-417 | one entry bar: windows, signal, levels, exit, costs |
| `Backtest.TradeExactly` | bot/backtest.py:248-417 | there is a trade exactly for a signal with a positive entry and fill; entry, levels, exit, costs and result of it |
| `Backtest.LevelsKeepDistance` | bot/backtest.py:281-286 | the levels keep the signal's distance from the fill |
| `Backtest.PriceIsLastClose` | bot/backtest.py:241-245 | the price proxy is the close of the last candle opened |
| `Backtest.RunStrategy` | bot/backtest.py:247-419 | the entry loop |
| `Backtest.ReplayHasTrades` | bot/backtest.py:247-419 | the replay has exactly the trades of the bars it visits, in order |
| `Backtest.TradeIsBracketed` | bot/backtest.py:281-373 | a trade on an ordered signal is bracketed before costs |
| `Backtest.PnlOfWeightedExit` | bot/backtest.py:374-385 | return and fees of a trade are those of its weighted exit price |
| `LookAhead.NoLookAheadPastDeadline` | bot/backtest.py:236-417 | sorted histories that agree through bar k give the same trade whenever the bar after k opens after the trade's last exit instant |
| `LookAhead.NoLookAhead` | bot/backtest.py:236-417 | with increasing timestamps, agreement through a bar that opens no earlier than the trade's last exit instant gives the same trade |
| `LookAhead.FortyBarsReach` | bot/backtest.py:236-291 | on candles a full interval apart that is every bar from i + 40 on |
| `LookAhead.DeterminedExactly` | bot/backtest.py:236-417 | for any later bar k and any least gap between candles, all histories that agree through bar k give one trade if and only if it has ended by bar k, at a level or with its fortieth bar, and the settlements from the earliest next opening to its exit cancel instant by instant |
| `LookAhead.FortyBarsExactly` | bot/backtest.py:375-383 | the forty bars determine a trade if and only if it exits before the last of them closes or the settlements of that instant cancel |
| `LookAhead.FlatTradeLooksAhead` | bot/backtest.py:241-245 | a concrete trade, settlement and history that the forty bars do not determine |
| `LookAhead.ReplayAgrees` | bot/backtest.py:247-419 | whole replays agree on all trades whose last exit instant is not after the last common bar |

## Left out

* One sequential acquirer per process and a lease row that is never deleted are assumed; the
  advisory lock and the row lock appear as the atomicity of one transaction.
* `wait_for_live_execution_ownership` repeats the modelled acquisition while the lease is held by another
  owner, and raises on any other failure.
* `OneShotExits` and `OneShotPasses` run one process at a time; `OneShotOverlap` interleaves processes up
  to the order id, not the fill and the repair of the stop after it.
* `OrderGateRuns` is the life of one process; its orders and gate are rebuilt at the next start.
* Stored intents and registries are taken as this code wrote them; malformed JSON raises in the
  source and is not modelled for the exits and the registry.
* The non-production path of the registry, which never touches the database.
* Garbage collection of old orders, the order-id index, and the paper branch of `reconcile_orders`.
* Binary floating point and rounding: all arithmetic is exact, including sums, percentages and
  tolerances.
* SHA-256 and MD5: client ids, ledger tokens and intent keys are injective in what is hashed.
* Upper and lower case: sides, kinds and statuses are parsed values; symbol normalisation is modelled
  where a decision depends on it.
* Logging, evidence breakdowns and coverage labels of the ledger.
* PnL values that are numeric strings; an unusable number is one case of its own.
* The `_v3` risk object that mirrors the peak, and the keys' namespaces.
* The evidence text and the timestamp of a provenance record.
* A method whose write may crash the process and that has no state of its own afterwards requires
  the outcome not to be a crash; the runs above cover the crash.
- Backtest.BisectRight: on unsorted timestamps it need not agree with a binary search, because the
  histories are rejected when they are not sorted.
- CapitalFlowRepeats.TimesApplied: from a stored cursor on; what the first installation applies is
  said by `BootstrapAppliesAtMostOne`.
- LookAhead.DeterminedExactly: for candles later than 10^11 milliseconds after the epoch (1973), so
  that a continuation at any millisecond is written in the one unit the source reads there.
- LookAhead.FortyBarsExactly: the same.
- Backtest.SimulateTrade: without the reported fields that are copied from the signal or the clock
  (score, regime, hour, day, opening time).
* The analyser of the strategy is any function of the three windows; indicators and scoring are not
  part of this model.
* History pagination, fee and funding downloads, and the metrics computed from the trades.
* `bot/engine.py`, HTTP endpoints, notifications, transport and request signing.
