# Copy-trading bot: verified models of its state machines and arithmetic

The repository copies the trades of tracked wallets on a prediction market. This project models
the parts of it that hold state or do arithmetic, and proves what those parts guarantee over every
run, every list and every price. `dafny verify dfyconfig.toml` checks everything.

- **Rate limiter** (`RateLimiter*.dfy`, `ClobRateLimiter.dfy`). The scheduler in front of the order
  book: two sliding-window logs, one queue per tenant, a rotation, a cap per tenant and a one-shot
  timer. A class follows the source statement by statement and is proved against a state machine of
  acquire, release and timer events; window bounds, rotation, FIFO order, the concurrency cap, the
  moment for which the timer is armed, timer progress and round robin are proved over all runs of that
  machine.
- **No-repeat protocol** (`TradeIdentity.dfy`, `PositionStore.dfy`, `PositionMap.dfy`,
  `PositionRefinement.dfy`, `NoRepeat*.dfy`, `Reconciliation*.dfy`). The list of executed and pending
  positions refines a map from key to pending orders and latest fill; the execution loop never calls
  the executor inside the applied period of a recorded fill or while an order is pending; it is
  proved exactly which histories remove pending blocks only on two absences; and both sides are joined
  in runs whose every change of the records comes from the loop, the reconciliation or a clean-up.
- **Duplicate gate** (`DedupGate.dfy`). The in-flight and processed sets under any interleaving of
  handlers at their awaits, and exactly which histories of passes and executions admit a trade.
- **Edit distance** (`Levenshtein.dfy`). The one-row table equals the length of a shortest script,
  and that length is a metric.
- **Position mirror** (`Mirror*.dfy`). Executing a preview reaches the scaled allocation, a second
  preview selects nothing, and buys are financed by sells.
- **Exits** (`StopLoss.dfy`, `Ladder*.dfy`). A closed form of the trailing stop for every price stream,
  and share conservation of ladders.
- **Detection cursor** (`DetectionCursor.dfy`) and **order cost** (`OrderCost.dfy`, `Rounding.dfy`).

Times are integers in milliseconds; amounts and prices are exact rationals with `toFixed` and
`Math.round` written out as rounding functions. Answers of exchanges, clocks and storage failures
are parameters. Lemmas named `...InNumbers` restate a rule with the constants of the source, apart
from the functions that compute it. Each asynchronous function is cut into the steps between its
awaits where interleaving matters (rate limiter, gate, polling guard); elsewhere handlers run one
after the other, as the monitor awaits them.

## What is not as the comments promise

The model follows the code. Where a promise fails, a concrete run is given, and the exact condition
under which it holds is proved for all inputs, on one call and over whole runs where runs matter.

- The rotation scan re-reads the length of a list it is shortening, so a waiting tenant can be left
  with no timer and nothing in flight (`StuckRunReachable`); `WakeupsExact` says exactly when, and
  `EntryBoundNeverLoses` that a bound taken at loop entry never does it.
- An empty tenant name is falsy and is never dispatched (`EmptyNameIsOverlooked`); `WakeupsExact`
  covers it. The callers' names come from `getTenantIdStrict` (`src/tenantContext.ts:16-24`), which
  never yields one.
- Calling one release callback twice lifts a tenant over its cap (`DoubleReleaseBreaksCap`). A repeated
  call leaves the counter right just if the tenant has nothing outstanding (`RepeatedCallExact`), and
  the counters are right throughout a run just if every repeated call is of that kind
  (`CountersExactly`).
- The clean-up at start-up removes fills of wallets that never repeat, whose period is 0
  (`CleanupForgetsForever`), and the one in `src/api/routes.ts:2728-2731` uses the newly set period,
  which may be shorter than a wallet's own. `CleanupChangesExactly` gives the condition on one list and
  `CleanupForgetsExactly` on whole histories, for every period and threshold.
- The keys collected when persistence fails are never read, so an unrecorded fill can be repeated at
  once (`UnrecordedFillRepeats`). In every lawful history in which nothing changes the key's entry in
  between, a later attempt inside the period of a fill, or while an order rests, reaches the executor
  just if the first result could not be recorded (`FillRepeatsExactly`, `RestingRepeatsExactly`).
  `AsideExactly` lists the changes that leave the entry alone; a clean-up that drops the fill is not
  one of them.
- A pending block can be removed without two absences since its order was last seen open. This happens
  when a snapshot shows the order open and its counted miss stays: the position look-up fails after the
  confirming snapshot (`FailedConfirmation`) or after the first one (`FailedFirstLookUp`), or the loop
  returns at another block (`EarlyReturn`); the next absence then removes the block
  (`NextAbsenceRemoves`). Or a later turn of the loop relies on the first snapshot although a
  confirmation has since shown its order open (`StaleSnapshot`). `CallExact` gives the exact condition
  on one call's answers and `HistoryExactly` lifts it to histories.
- A stop-loss whose lock price is not above its stops can have its trigger suppressed by the
  exemption for the locking tick (`LockingTickSuppresses`); `ExemptionHarmlessExactly` gives the
  condition.
- A ladder check whose due steps sell more than 100 percent records more executed shares than there
  were (`OverfullBatchLosesCount`); `BatchConservesExactly` gives the condition for one check and
  `ConservesExactly` for whole runs.
- A feed time with a fraction of a millisecond is stored without it, and its row is delivered again
  (`AtMostOnceExactly`). A feed time beyond the range of a date throws while it is logged, so the
  cursor is not stored: rows before it are delivered by every cycle, rows behind it by none
  (`OutOfRangeStopsCursor`; `DeliveredAtExactly` and `DeliveredAgainExactly` give the conditions for
  every feed, clock and first cursor).
- The clamp to collateral rounds to cents and can pass a safety cap that is not a whole number of
  cents (`ClampPassesCap`, `CapHeldExactly`), and the 0.50 reserve does not cover slippage
  (`ReserveTooSmall`): it covers every order just if the final price is not above the quoted one
  (`ReserveCoversExactly`).

## Model

| member | source | states |
|---|---|---|
| ClobRateLimiterClass.ClobRateLimiter.Acquire | src/clobRateLimiter.ts:35-45 | acquiring queues the request, enters the tenant in the rotation once, and dispatches: the new state is the acquire step of the state machine |
| ClobRateLimiterClass.ClobRateLimiter.ReleaseGrant | src/clobRateLimiter.ts:81-89 | calling a release callback is the release step, also when it is called again |
| ClobRateLimiterClass.ClobRateLimiter.TimerCallback | src/clobRateLimiter.ts:146-149 | the timer callback clears the timer and dispatches: the timer step |
| ClobRateLimiterClass.ClobRateLimiter.RunDispatch | src/clobRateLimiter.ts:47-92 | the self-recursive dispatch terminates (on the pending requests) in the state the cascade of activations describes |
| ClobRateLimiterClass.ClobRateLimiter.Serve | src/clobRateLimiter.ts:65-89 | one grant: the oldest request leaves its queue, both logs and the counter of the tenant grow by one |
| ClobRateLimiterClass.ClobRateLimiter.Shift | src/clobRateLimiter.ts:65-75 | the oldest request is taken from the queue of its tenant and the other queues stay |
| ClobRateLimiterClass.ClobRateLimiter.PickNextTenant | src/clobRateLimiter.ts:94-115 | the in-place scan with its live bound yields the recursive scan's rotation and choice |
| ClobRateLimiterClass.ClobRateLimiter.CanGrant | src/clobRateLimiter.ts:117-123 | room in both logs after pruning |
| ClobRateLimiterClass.ClobRateLimiter.PruneTimestamps | src/clobRateLimiter.ts:125-132 | both loops drop exactly the leading entries at least a window old |
| ClobRateLimiterClass.ClobRateLimiter.ScheduleNextDispatch | src/clobRateLimiter.ts:134-150 | the timer is set by the specified delay |
| RateLimiterRotation.LivePickExact | src/clobRateLimiter.ts:94-115 | the code's scan picks the first eligible tenant if and only if there is one and the shrinking bound does not end the scan before it; otherwise nobody |
| RateLimiterRotation.EntryPickExact | src/clobRateLimiter.ts:94-115 | with the bound taken at entry the scan picks the first eligible tenant whenever one exists |
| RateLimiterRotation.LivePickGuarantees | src/clobRateLimiter.ts:99-103 | without stale entries the two scans agree; the code's scan always reaches the first half, rounded up, of the rotation |
| RateLimiterRotation.ScanKeepsEntries | src/clobRateLimiter.ts:99-112 | a scan drops only stale entries and keeps the rest, each once |
| RateLimiter.ChosenHasRequest | src/clobRateLimiter.ts:65-71 | a chosen tenant has a request and room under its cap, so the branch without a request cannot be reached |
| RateLimiter.GrantShrinksPending | src/clobRateLimiter.ts:65-91 | every activation that grants strictly shrinks the set of waiting requests, on which dispatch terminates |
| RateLimiterInvariants.RunInv | src/clobRateLimiter.ts:35-132 | the invariant of rotation, queues, counters and logs holds after every event of every run |
| RateLimiterInvariants.WindowBound | src/clobRateLimiter.ts:52-79 | in every run with a clock that never runs backwards, no half-open interval of one burst window holds more grants than the burst limit and, at once, none of one sustained window more than the sustained limit |
| RateLimiterInvariants.RotationAndFifo | src/clobRateLimiter.ts:35-115 | in every run a tenant with requests is in the rotation exactly once, and what a tenant asked for is what it was granted, in order, followed by its queue |
| RateLimiterInvariants.ConcurrencyCap | src/clobRateLimiter.ts:79-89 | when each callback is called at most once, the counter is the number of outstanding grants, never exceeds the cap, and requests are pending, outstanding or released |
| RateLimiterExamples.DoubleReleaseBreaksCap | src/clobRateLimiter.ts:81-89 | a run in which a callback is called twice has two grants outstanding under a cap of one |
| RateLimiterInvariants.RepeatedCallExact | src/clobRateLimiter.ts:81-89 | calling a callback again leaves every counter equal to the outstanding grants if and only if its tenant has none outstanding; otherwise the tenant counts one too few |
| RateLimiterInvariants.CountersExactly | src/clobRateLimiter.ts:35-92 | in a run the counters equal the outstanding grants, within the cap, after every event if and only if every repeated call of a callback comes while its tenant has nothing outstanding |
| RateLimiterProgress.DispatchLosesExactly | src/clobRateLimiter.ts:47-115 | a cascade leaves an eligible tenant without a timer if and only if its last scan overlooked one |
| RateLimiterProgress.WakeupsExact | src/clobRateLimiter.ts:47-115 | after any event of any run a wake-up is lost exactly when the last scan was ended by the live bound before the first eligible tenant or found that tenant's name empty; never when the last rotation holds named tenants without stale entries |
| RateLimiterProgress.EntryBoundNeverLoses | src/clobRateLimiter.ts:94-115 | with the bound taken at entry no run of named tenants ever loses a wake-up |
| RateLimiterProgress.EmptyNameIsOverlooked | src/clobRateLimiter.ts:55-58 | a request under the empty name waits with room for it and no timer, whatever the limits and the bound |
| RateLimiterExamples.StuckRunReachable | src/clobRateLimiter.ts:94-115 | a run of eleven events with every callback called once ends with a request waiting, room in both logs, nothing in flight and no timer |
| RateLimiterProgress.BlockedDelay | src/clobRateLimiter.ts:134-150 | the delay armed by a blocked pick is at least 1 and at most the larger window (or 1) |
| RateLimiterProgress.BlockedUntilExactly | src/clobRateLimiter.ts:134-150 | a blocked pick arms the timer for the moment at which the first full log loses its oldest entry, neither sooner nor later; one millisecond ahead if no full log has an entry |
| RateLimiterProgress.ArmedForFirstRoom | src/clobRateLimiter.ts:117-150 | in every run with positive limits, while a timer is armed a time has reached it if and only if by then an entry of a full log is at least a window old |
| RateLimiterProgress.QuietUntilFiring | src/clobRateLimiter.ts:47-50 | nothing is granted and no log changes while the timer is armed |
| RateLimiterProgress.FiringOutcome | src/clobRateLimiter.ts:117-150 | a firing on time grants, finds nobody to serve, or re-arms with strictly fewer full logs |
| RateLimiterProgress.TimerProgress | src/clobRateLimiter.ts:117-150 | of two successive firings on time one grants unless it finds nobody to serve; with one log full the first does |
| RateLimiterProgress.ServedAreGrants | src/clobRateLimiter.ts:47-92 | the tenants served along a cascade are exactly the grants that dispatch appends |
| RateLimiterProgress.RoundRobin | src/clobRateLimiter.ts:47-115 | inside a cascade, between two successive grants to a tenant every other tenant still waiting and under its cap is granted exactly once |
| Levenshtein.ShortestScript | src/jungleAgentsPolymarketSync.ts:33-49 | there is an edit script from one string to the other of the recursive distance's cost |
| Levenshtein.NoCheaperScript | src/jungleAgentsPolymarketSync.ts:33-49 | no script is cheaper |
| Levenshtein.Symmetric | src/jungleAgentsPolymarketSync.ts:33-49 | the distance is symmetric |
| Levenshtein.ZeroIffEqual | src/jungleAgentsPolymarketSync.ts:33-49 | it is zero if and only if the strings are equal |
| Levenshtein.Triangle | src/jungleAgentsPolymarketSync.ts:33-49 | it satisfies the triangle inequality |
| Levenshtein.Bounds | src/jungleAgentsPolymarketSync.ts:33-49 | it lies between the length difference and the longer length |
| Levenshtein.Compute | src/jungleAgentsPolymarketSync.ts:33-49 | the program with its shortcuts and its single row returns that distance |
| Levenshtein.OverwriteRow | src/jungleAgentsPolymarketSync.ts:39-46 | one pass over the row with the saved diagonal turns one row of the full table into the next |
| TradeIdentity.ExecutionKeyIsNoTokenKey | src/storage.ts:810-823 | an execution key never equals the token key that the store also accepts |
| TradeIdentity.ExecutionKeysDistinct | src/tradeIdentity.ts:41-50 | two trades that name a token share an execution key if and only if, white space apart, token and execution wallet are the same, whatever their market and outcome |
| TradeIdentity.MarketKeysDistinct | src/tradeIdentity.ts:41-50 | a trade without a token shares its execution key exactly with the trades without a token of the same market, outcome label and execution wallet |
| TradeIdentity.LabelExactly | src/tradeIdentity.ts:12-34 | the outcome label is the outcome without outer white space and with each small letter raised, or UNKNOWN when nothing is left |
| TradeIdentity.TrimExactly | src/tradeIdentity.ts:42-47 | trimming takes white space off both ends, nothing else, and all of it |
| PositionStore.Store.AddExecutedPosition | src/storage.ts:638-705 | the searches and updates in place yield the specified list: a pending match is filled, else an executed match refreshed, else a record appended |
| PositionStore.Store.AddPendingPosition | src/storage.ts:707-741 | the record with that order id is replaced, or one is appended |
| PositionStore.Store.MarkPendingPositionExecuted | src/storage.ts:743-757 | the first record with the order id becomes executed now; the result says whether there was one |
| PositionStore.Store.RemovePendingPosition | src/storage.ts:759-771 | exactly the pending records with the order id go; the result says whether any did |
| PositionStore.Store.IncrementPendingPositionMissingOrderChecks | src/storage.ts:773-786 | the first pending record of the order counts one more, and that count is returned |
| PositionStore.Store.ResetPendingPositionMissingOrderChecks | src/storage.ts:788-800 | its count returns to 0 |
| PositionStore.Store.CleanupExpiredPositions | src/storage.ts:852-876 | exactly the executed records at least the threshold old go; the number removed is returned |
| PositionStore.BlockedByOne | src/storage.ts:802-842 | a record blocks under its own key, the key of its token or, when no key is asked for, its market and outcome: while pending, for less than the given hours after its time, or for ever at 0 hours |
| PositionStore.RecordedFillBlocks | src/storage.ts:638-842 | a fill just recorded blocks its key and its token for the hours asked for, whatever the list held |
| PositionStore.RecordedOrderBlocks | src/storage.ts:707-842 | an order just recorded blocks them at any later time |
| PositionStore.PromotedExactly | src/storage.ts:743-757 | a promotion changes the first record of the order alone: executed, at the given time, no absences |
| PositionMap.StepRefines | src/storage.ts:638-876 | each operation on the list acts on the per-key map as its abstract counterpart |
| PositionRefinement.ListRefinesMap | src/storage.ts:802-842 | after any sequence of operations with fresh order ids the blocked check gives the map's answer, even with several executed records of one key |
| PositionRefinement.CleanupChangesExactly | src/storage.ts:852-876 | a clean-up changes the answer for a period at a time if and only if all matching records are fills, one that it drops still counts for the period then, and none that it keeps does |
| PositionRefinement.CleanupIsInvisible | src/storage.ts:852-876 | for periods in (0, T] it changes no answer about the same list, now or at a later clock |
| PositionRefinement.CleanupForgetsExactly | src/storage.ts:638-876 | for any period, a clean-up with threshold T inserted in a lawful history changes a later answer if and only if without it nothing is pending for the key and its latest fill was T old at the clean-up but still counts for the period |
| PositionRefinement.CleanupIsForgotten | src/storage.ts:638-876 | a clean-up with threshold T inserted in a lawful history changes no answer given afterwards for a period in (0, T], whatever operations follow it |
| PositionRefinement.CleanupKeepsPending | src/storage.ts:861-867 | it never drops a pending record |
| PositionRefinement.CleanupInNumbers | src/storage.ts:852-876 | a clean-up leaves exactly the pending records and the fills less than the given hours old; all of them at 0 hours |
| PositionRefinement.CleanupForgetsForever | src/copyTrader.ts:141-154 | a fill under a period of 0 is forgotten by the start-up clean-up |
| NoRepeat.CopyTrader.ExecuteForTargets | src/copyTrader.ts:1173-1477 | the loop over execution wallets makes exactly the checks, calls and records of the specified handler, stopping where it returns early |
| NoRepeat.CopyTrader.ExecuteForTarget | src/copyTrader.ts:1174-1476 | one turn of the loop for one execution wallet |
| NoRepeat.NoRepeatSpacing | src/copyTrader.ts:1171-1191 | over whole runs, an executor call for a key has its check at least the applied period after every recorded fill of the key, and there is none at all after a fill when the period is 0 |
| NoRepeat.NoCallWhilePending | src/copyTrader.ts:1406-1435 | over whole runs, the executor is not called for a key whose recorded order is unsettled |
| NoRepeat.CalledExactly | src/copyTrader.ts:1174-1338 | an execution wallet is served if and only if its check succeeds, it is not skipped, and the map does not block its key |
| NoRepeat.CalledInNumbers | src/copyTrader.ts:1171-1338 | an execution wallet is served if and only if its check succeeds, nothing of its key is pending, and its latest fill is at least 300000 ms old with no-repeat off, 86400000 ms with no period, h * 3600000 ms with a period h, and never again with period 0 |
| NoRepeat.StopsExactly | src/copyTrader.ts:1174-1476 | the loop stops at a wallet that is neither blocked nor skipped if and only if the attempt is aborted, the executor throws, or its result cannot be recorded |
| NoRepeat.ReachedExactly | src/copyTrader.ts:1173-1477 | a wallet is reached if and only if the loop stopped at none before it |
| NoRepeat.ResultBlocks | src/copyTrader.ts:1360-1435 | after a result that was recorded, the position is blocked under the key of the wallet and under its token: a fill for the hours asked for, a resting order at any time |
| NoRepeat.AsideExactly | src/storage.ts:638-876 | a change leaves the entry of a key alone if and only if it is a fill or order of another key (or a second fill at the same time), settles an order that the key does not wait for, counts absences, or is a clean-up that does not drop its latest fill |
| NoRepeat.FillRepeatsExactly | src/copyTrader.ts:1171-1392 | in every lawful history, a later attempt within the applied period of a fill (or at any time if that is 0) that meets no other obstacle calls the executor if and only if the fill could not be recorded, whatever happened in between that left the entry of the key alone |
| NoRepeat.RestingRepeatsExactly | src/copyTrader.ts:1406-1435 | the same for an order left resting, at any later time |
| NoRepeat.UnrecordedFillRepeats | src/copyTrader.ts:1386-1392 | a fill that could not be recorded is followed by a second call one millisecond later |
| Reconciliation.Reconciler.Reconcile | src/copyTrader.ts:1546-1667 | the first fetch and the loop over pending blocks have the specified effect on the records, also when a fetch or a position look-up fails, before the loop or midway |
| Reconciliation.Reconciler.HandlePendingBlock | src/copyTrader.ts:1593-1666 | one block: reset, promote, count and confirm, or remove |
| ReconciliationEvidence.CallExact | src/copyTrader.ts:1580-1667 | with the counters within the absences seen, a call keeps them so and removes only blocks with two absences and an unmoved position if and only if no turn counts or removes an order that the call has just seen open, and its last snapshot shows no order open whose counted miss stays |
| ReconciliationEvidence.HistoryExactly | src/copyTrader.ts:1580-1667 | over every history of calls and other changes of the records, all of that holds throughout if and only if every call meets this condition |
| ReconciliationEvidence.RemovalsJustified | src/noRepeatReconciliation.ts:18-39 | when every call meets it, a removed block had two absences since its order was last seen open and its position was at most 0.000001 shares above the baseline (a buy) or below it (a sell), and stored counters never exceed the absences |
| ReconciliationTurns.OutcomeExact | src/copyTrader.ts:1593-1666 | handling a pending block fills it exactly if its position was seen past baseline with the order absent, removes it exactly if the order was absent with a counted miss (or twice in this turn) and the position unmoved, and otherwise keeps it |
| ReconciliationTurns.OutcomeInNumbers | src/noRepeatReconciliation.ts:18-39 | in numbers: an order in the snapshot keeps its block; else a buy more than 0.000001 shares above its baseline, or a sell as much below it, is filled; else a counted miss removes it; else the second look decides the same way, and keeps it if it fails or shows the order |
| ReconciliationTurns.BlocksExactly | src/copyTrader.ts:1546-1560 | a call loads exactly the pending records of the key, of the token that the key names, or of the market and outcome |
| ReconciliationChanges.CallLawful | src/copyTrader.ts:1592-1667 | the changes that a call makes are operations that may follow any lawful history (no order is filled twice, the clock runs on), they lead to the records the call leaves, and a block taken for gone is removed |
| NoRepeatRuns.RunSound | src/copyTrader.ts:683-1477 | in every run of reconciliations, loop turns and clean-ups with fresh order ids and a forward clock, the history of the records is lawful and every executor call passed its check |
| NoRepeatRuns.CalledAgainOnlyOnceSettled | src/copyTrader.ts:683-1435 | in every run the executor is not called for a key with a recorded order until some call of the reconciliation saw the order absent and the position moved past baseline, or removed the block |
| NoRepeatRuns.CalledAgainOnlyOnEvidence | src/noRepeatReconciliation.ts:18-39 | if every call meets the condition of CallExact, that removal came after two absences since the order was last seen open, with the position at most 0.000001 shares past its baseline |
| NoRepeatRuns.SpacedInRuns | src/copyTrader.ts:1171-1191 | in every run a call comes at least the applied period after every recorded fill of its key |
| NoRepeatRuns.SpacedInNumbers | src/copyTrader.ts:1171-1191 | in every run a turn of the loop that calls the executor has its check at least 300000 ms, 86400000 ms or h * 3600000 ms, by the settings of the trade, after every recorded fill of its key, and comes never after one with period 0 |
| NoRepeatRuns.PendingAsTraded | src/copyTrader.ts:1406-1435 | in every run each pending record carries the order id, baseline, direction, key and token of some attempt of the run |
| NoRepeatRuns.LoopIsMoves | src/copyTrader.ts:1173-1477 | the execution loop of a handler makes the turns of such a run, up to the one at which it stops |
| ReconciliationExamples.FailedConfirmation | src/copyTrader.ts:1616-1628 | the confirming snapshot shows the order open, the position look-up then fails, and the counted miss stays |
| ReconciliationExamples.FailedFirstLookUp | src/copyTrader.ts:1580-1587 | the first snapshot of a later call shows the order open, the position look-up then fails before the loop, and the counted miss stays |
| ReconciliationExamples.EarlyReturn | src/copyTrader.ts:1592-1606 | one snapshot shows two orders open, the loop returns at the first, and the second keeps its counted miss |
| ReconciliationExamples.StaleSnapshot | src/copyTrader.ts:1592-1667 | a block is removed on the first snapshot although the confirmation for another block has just shown its order open |
| ReconciliationExamples.NextAbsenceRemoves | src/noRepeatReconciliation.ts:18-39 | a block with a counted miss goes after one absence since its order was seen open |
| DedupGate.Gate.Enter | src/copyTrader.ts:449-493 | the gate's clean-up, three checks and marks are one step of the interleaving model |
| DedupGate.Gate.MarkProcessed | src/copyTrader.ts:1395-1396 | both marks after an execution |
| DedupGate.Gate.Exit | src/copyTrader.ts:1504-1510 | the final block clears both in-flight keys |
| DedupGate.InFlightExact | src/copyTrader.ts:483-493 | under any interleaving the in-flight set is exactly the union of the active handlers' keys, which are pairwise disjoint |
| DedupGate.SameHashAnHourApart | src/copyTrader.ts:456-493 | two passes with the same tenant and transaction hash are more than 3600000 ms apart |
| DedupGate.AdmittedExactly | src/copyTrader.ts:465-481 | the gate admits a trade if and only if its hash was not marked within the hour, its compound key not within five minutes, and no active handler holds either key |
| DedupGate.AdmittedByHistory | src/copyTrader.ts:449-493 | under any interleaving the gate admits a trade if and only if in the history of events no pass or execution marked its hash within the last 3600000 ms, no execution marked its compound key within the last 300000 ms, and no active handler holds either key |
| DedupGate.MarksHold | src/copyTrader.ts:1395-1396 | whatever happens in between, after an execution no trade with its compound key is admitted for 300000 ms, under any hash, and none with its hash for 3600000 ms |
| Mirror.CalculateMirrorPreview | src/positionMirror.ts:174-271 | the loops compute the specified trades, selection and balance shortfall |
| Mirror.SelectedExactly | src/positionMirror.ts:287-425 | a trade is selected if and only if the weight is positive, the market open, at least 5 shares are missing or in excess and the price is within the tolerance of their entry; it then goes towards the target |
| Mirror.TargetInNumbers | src/positionMirror.ts:334-349 | the target is to your portfolio, scaled by the weight, as the position is to theirs: their total times the value of the target is size times price times your total times the weight; without a price or a total it is 0 |
| Mirror.TradeInNumbers | src/positionMirror.ts:334-425 | the shares, costs and percentages shown, within half a cent of the exact ones; the direction; and nothing below half a share or, to trade, below 5 |
| Mirror.CloseInNumbers | src/positionMirror.ts:431-503 | what they do not hold is sold whole if the market is open and there are at least 5 shares, and not listed below half a share |
| Mirror.OrderExactly | src/positionMirror.ts:510-530 | every selected trade is attempted as often as it is listed, and nothing else is |
| Mirror.SellsFirst | src/positionMirror.ts:521-530 | no sell is attempted after a buy |
| Mirror.ExecuteMirrorTrades | src/positionMirror.ts:510-606 | every selected trade is attempted once, all sells before any buy, each side in the listed order, and failures are counted and stop nothing |
| Mirror.FailuresCounted | src/positionMirror.ts:557-594 | the failures counted are the attempts without success |
| MirrorIdempotence.MirrorIdempotent | src/positionMirror.ts:272-503 | after filling exactly the selected trades at the listed prices the portfolio value is unchanged and a second preview selects nothing |
| MirrorIdempotence.SettledTheirs | src/positionMirror.ts:334-425 | a selected trade brings the holding within 0.005 shares of its target |
| MirrorIdempotence.AllocationReached | src/positionMirror.ts:334-425 | in numbers: after the execution your worth in a selected asset is within 0.005 shares, at its price, of their worth in it over their total, times your portfolio and the weight |
| MirrorIdempotence.FilledAllKeeps | src/positionMirror.ts:174-181 | filling trades at the listed prices conserves balance plus position value, and moves each asset by the net of its trades |
| MirrorIdempotence.OrderNet | src/positionMirror.ts:521-530 | the sells-first order moves the same shares as the selection |
| MirrorFinancing.SelfFinancing | src/positionMirror.ts:227-247 | with weight at most 1 and listed values within their total, the shortfall is at most the value above target left unsold plus 0.005 a selected trade |
| MirrorFinancing.JoinSum | src/positionMirror.ts:186-227 | joining the two lists by asset loses and repeats no value |
| MirrorFinancing.TargetsFit | src/positionMirror.ts:334-349 | the targets together fit in the portfolio |
| MirrorFinancing.NeverOverdrawn | src/positionMirror.ts:521-586 | with the sells first the balance at the estimated costs never goes below zero during execution if and only if there is no balance warning |
| StopLoss.StopLossManager.CreateStopLoss | src/smartStopLoss.ts:97-134 | the new order is appended, active, with stop at its initial level and high-water mark at entry |
| StopLoss.StopLossManager.UpdatePrices | src/smartStopLoss.ts:139-197 | one round updates every order by its own price and returns exactly the orders it deactivates |
| StopLoss.StopLossManager.CancelStopLoss | src/smartStopLoss.ts:202-209 | the first order with the id becomes inactive |
| StopLoss.CancelledForGood | src/smartStopLoss.ts:139-209 | a cancelled order never fires in a later round and never changes, and every other order lives on as if nothing had been cancelled |
| StopLoss.CreatedInNumbers | src/smartStopLoss.ts:54-134 | an order without overrides stops at three quarters of its entry, at least 0.01, trails by 15 percent and locks 0.15 above entry; each override is taken |
| StopLoss.TriggeredExactly | src/smartStopLoss.ts:139-197 | a round returns exactly the orders that were active and whose price in the round deactivated them, as they are afterwards |
| StopLoss.TriggeredCount | src/smartStopLoss.ts:139-197 | it returns each of them once |
| StopLoss.StopIsForm | src/smartStopLoss.ts:148-176 | for any price stream the stop of an active order is the highest of the initial stop, the running maximum times (100 - trailing percent) / 100 once above entry, and entry once locked |
| StopLoss.StopNeverFalls | src/smartStopLoss.ts:142-190 | the stop never falls, and an inactive order never changes |
| StopLoss.ExemptionHarmlessExactly | src/smartStopLoss.ts:160-180 | the locking tick never suppresses a trigger, on any stream, if and only if the threshold and trail are positive and the initial stop is below the lock price |
| StopLoss.LockingTickSuppresses | src/smartStopLoss.ts:160-180 | an order entered at 0.50 with its stop at 0.70 stays active at the price 0.66, which locks it |
| StopLoss.DefaultsHarmless | src/smartStopLoss.ts:50-57 | orders created with the defaults meet those conditions |
| StopLoss.FiresAtFirstBreach | src/smartStopLoss.ts:178-189 | the order is active exactly while every price stayed above the closed form, and otherwise fired at the first that did not |
| StopLoss.OrdersAreIndependent | src/smartStopLoss.ts:142-146 | over rounds of prices each order lives through the prices of its own token alone |
| StopLoss.FiresOnce | src/smartStopLoss.ts:143-181 | an order triggered in one round is unchanged by all later rounds |
| Ladder.LadderExitManager.CreateLadder | src/ladderExitManager.ts:94-143 | the custom or generated steps, none executed, all shares remaining |
| Ladder.LadderExitManager.CheckLadders | src/ladderExitManager.ts:149-171 | the nested loops emit every due step of every active ladder, each sized from the same remaining shares |
| Ladder.LadderExitManager.MarkStepExecuted | src/ladderExitManager.ts:176-197 | the step of the first ladder with the id is executed, its shares leave the remaining ones down to 0, and a finished ladder becomes inactive |
| Ladder.LadderExitManager.CancelLadder | src/ladderExitManager.ts:202-209 | the first ladder with the id becomes inactive |
| LadderConservation.CancelledSellsNothing | src/ladderExitManager.ts:149-209 | after a cancellation a check emits exactly what it would have emitted, without the sales of the cancelled ladder |
| LadderConservation.CheckExactly | src/ladderExitManager.ts:149-171 | a check emits exactly the batches of the ladders whose token has a price |
| LadderConservation.StepsInNumbers | src/ladderExitManager.ts:46-123 | default steps sell 25 percent each at 0.10, 0.20, 0.30 and 0.40 above entry, at most at 0.99; a step of the caller that lacks a trigger or a percentage gets 0 or 25 |
| LadderConservation.MarkAllMarks | src/ladderExitManager.ts:176-197 | marking a batch has a result stated without an order of marks |
| LadderConservation.RoundExecutes | src/ladderExitManager.ts:152-168 | a round executes exactly the due steps of an active ladder |
| LadderConservation.RoundInNumbers | src/ladderExitManager.ts:152-197 | in numbers: a round executes exactly the unexecuted steps whose trigger the price has reached and whose percentage of the shares remaining before it is at least 0.01 shares, each for that many; the rest stay as they are |
| LadderConservation.MarkingOrderIrrelevant | src/ladderExitManager.ts:176-197 | permuting the marks of a batch changes nothing |
| LadderConservation.BatchConservesExactly | src/ladderExitManager.ts:162-187 | a check marked in full keeps remaining plus executed shares, and never clamps, if and only if its percentages add up to at most 100 |
| LadderConservation.ConservesExactly | src/ladderExitManager.ts:149-197 | an unstarted active ladder keeps remaining plus executed shares in every run marked in full if and only if the percentages of the steps that sell at least 0.01 of its shares add up to at most 100 |
| LadderConservation.Conservation | src/ladderExitManager.ts:149-197 | in particular, if all positive percentages add up to at most 100, remaining plus executed shares are the total after every run |
| LadderConservation.DefaultStepsSellAll | src/ladderExitManager.ts:48-51 | the default steps add up to 100 |
| LadderConservation.DefaultStepsUniform | src/ladderExitManager.ts:111-123 | generated steps have rising triggers and one percentage |
| LadderConservation.ExecutedStepsFormPrefix | src/ladderExitManager.ts:158-168 | in every run of such a ladder the executed steps are its lowest ones |
| LadderConservation.OverfullBatchLosesCount | src/ladderExitManager.ts:187 | two due steps of 60 percent execute 120 of 100 shares |
| DetectionCursor.TrackedWallet.CheckForTrades | src/walletMonitor.ts:201-285 | the loop delivers exactly the rows later than the cursor, in feed order, up to a row whose time no date can hold; it moves the cursor to the latest of them unless it met such a row |
| DetectionCursor.SecondsAndMillisAgree | src/walletMonitor.ts:210-224 | one moment given in seconds or in milliseconds, as a number or as a text, has one time |
| DetectionCursor.NoTime | src/walletMonitor.ts:210-228 | a text that is no date, an early date without leading digits, a missing time and a number not above 0 are passed over, and no other number is |
| DetectionCursor.CursorNeverDecreases | src/walletMonitor.ts:203-206 | over cycles with successful writes the cursor never decreases |
| DetectionCursor.AtMostOnceExactly | src/walletMonitor.ts:228-285 | no run whose cycles complete where they deliver the row delivers it in two cycles, if and only if its time is a whole number of milliseconds |
| DetectionCursor.RangesDisjoint | src/walletMonitor.ts:228-282 | what a cycle delivers is later than every row at a whole millisecond that an earlier, complete cycle delivered |
| DetectionCursor.StoredExactly | src/walletMonitor.ts:203-282 | after any cycles the stored cursor is the latest of the first one and the whole milliseconds that complete cycles saw; a wallet without one gets it from the first complete cycle that saw a time within its window |
| DetectionCursor.DeliveredAtExactly | src/walletMonitor.ts:203-285 | a cycle delivers a row if and only if it reaches it (no row out of range before it in the feed), no complete cycle before saw a time whose whole milliseconds reach the row's, and the row is later than the first cursor or, while there is none, than the start of the window |
| DetectionCursor.DeliveredExactly | src/walletMonitor.ts:203-285 | a row is ever delivered if and only if that holds for some cycle |
| DetectionCursor.DeliveredAgainExactly | src/walletMonitor.ts:228-285 | after a delivery the row is delivered again exactly by cycles that reach it before a complete cycle, the delivering one included, saw such a time; at a whole millisecond this needs the delivering cycle to be cut short |
| DetectionCursor.OutOfRangeStopsCursor | src/walletMonitor.ts:237-285 | with a row out of range in the feed, a row before it is delivered by every cycle and a row behind it by none |
| DetectionCursor.OneCycleAtATime | src/walletMonitor.ts:111-124 | however the timer fires at most one cycle runs, the flag is up just while it does, a firing leaves one running and a settled cycle none |
| OrderCost.EvaluateAllocationGate | src/copyTrader.ts:42-78 | the weight is in [0, 2] and positive exactly when the trade is allowed, which needs a live policy or an untagged wallet without one |
| OrderCost.SizeTrade | src/copyTrader.ts:1027-1114 | weight, cap and collateral clamp, with their rejections |
| OrderCost.WeightedInNumbers | src/copyTrader.ts:1028-1033 | the weighted size is the base size for weight 1, and else whole cents within half a cent of size times weight |
| OrderCost.SizeInNumbers | src/copyTrader.ts:1035-1114 | a weighted size is rejected exactly if it is not positive, above twice the configured size (500 if proportional and that is more), or a buy with at most 0.50 of collateral; a buy beyond the collateral less 0.50 gets that within half a cent, and everything else stays |
| OrderCost.AlignPrice | src/clobClient.ts:211-227 | the price moves to the nearest tick unless that is 0 or 1 |
| OrderCost.AlignedOnGrid | src/clobClient.ts:211-223 | a price more than half a tick away from 0 and 1 becomes a whole number of ticks |
| OrderCost.ExecuteTrade | src/tradeExecutor.ts:168-236 | slippage, price limits, size rounding and minimum, with their rejections |
| OrderCost.SlippedInNumbers | src/tradeExecutor.ts:191-202 | a buy gives way upwards by the percentage but not past 0.99, a sell downwards but not past 0.01 |
| OrderCost.ProcessTarget | src/copyTrader.ts:1116-1296 | the order, if any, that a request leads to for one execution wallet |
| OrderCost.PlacedExactly | src/copyTrader.ts:1027-1296 | a request becomes an order if and only if its price, size, shares, holdings, minimum sizes and final price all pass |
| OrderCost.SizeBounds | src/copyTrader.ts:1052-1104 | a size is at most the cap up to half a cent; a buy's is between the lesser of the weighted size and the collateral less 0.505, and the lesser of them (up to half a cent) with 0.495 in place of 0.505; otherwise it is the weighted size |
| OrderCost.CapHeldExactly | src/copyTrader.ts:1052-1104 | no clamped size passes the safety cap if and only if the cap does not round up to the cent, except from an exact half cent |
| OrderCost.ClampPassesCap | src/copyTrader.ts:1070-1104 | a collateral of 20.5055 leads to a size of 20.01 under a cap of 20.006 |
| OrderCost.AlignedNear | src/clobClient.ts:213-223 | alignment moves a price by at most half a tick |
| OrderCost.BuySize | src/copyTrader.ts:1116-1119 | a buy is for its size at the quoted price, to half a hundredth of a share either way |
| OrderCost.SellSize | src/copyTrader.ts:1266-1292 | a sell is for its size at the quoted price or for the shares owned, whichever is less, within a hundredth of a share |
| OrderCost.BuyCostBound | src/tradeExecutor.ts:201-230 | a buy sized S at price p with slippage s and tick k costs at most (S/p + 0.005) * (p * (1 + s) + k/2) |
| OrderCost.BuyCostWithinCollateral | src/copyTrader.ts:1070-1119 | with the collateral check, the same bound with the least of the cap and the collateral less 0.495 in place of S |
| OrderCost.SellWithinHoldings | src/copyTrader.ts:1266-1292 | a sell exceeds the shares owned by at most 0.005 |
| OrderCost.ReserveCoversExactly | src/copyTrader.ts:1070-1104 | orders at a price, slippage and tick always cost at most the collateral if and only if the final price is not above the quoted one |
| OrderCost.ReserveTooSmall | src/copyTrader.ts:1070-1296 | with 2 percent slippage an order quoted at 0.50 costs 102 USDC out of a collateral of 100.50 |
| Rounding.Fixed2Near | src/positionMirror.ts:416-417 | rounding to two decimals is off by at most 0.005, odd, keeps the sign and yields whole cents |
| Rounding.Fixed4Near | src/positionMirror.ts:366-367 | rounding to four decimals is off by at most 0.00005 |
| Rounding.Fixed2Nearest | src/positionMirror.ts:416-417 | no whole number of cents is nearer |
| Rounding.Fixed2Idempotent | src/tradeExecutor.ts:230 | rounding twice is rounding once |

## Left out

- Network, SDK and chain calls, order submission and response parsing: their results are parameters.
- SQLite and JSON persistence, tenant contexts, logging, metrics and configuration plumbing: the stores
  are in-memory lists that save atomically, or fail where a failure is a parameter.
- Floating-point error: amounts are exact rationals and only the roundings of the source are modelled;
  not-a-number appears only as an unusable feed time.
- Aliasing between records returned by the stop-loss and ladder managers and the records they keep:
  both are lists of values.
- The lower-cased wallet address stored in each position record, which no modelled check reads.
- Letter case and white space beyond ASCII in outcome labels and tokens.
- The clock of the process is assumed never to run backwards wherever a result mentions two times.
- Listed sizes and prices of one asset may differ between two wallets in the source's data; the mirror
  results assume one price for an asset and one entry of it per wallet.
- The order price that a mirror trade is finally posted at (`src/positionMirror.ts:608-640`): the
  mirror results are about fills at the listed price.
- Manual clearing of the position store and retention pruning.
- PositionRefinement.ListRefinesMap: for histories in which order ids are fresh, an order is promoted at
  most once, keys are execution keys and token ids hold no colon; RunSound shows that runs are such
  histories as long as the exchange gives fresh order ids, token ids hold no colon and the clock runs
  forward.
- NoRepeat.NoRepeatSpacing: fills are those that were recorded; clean-ups in between use no shorter
  threshold than the period.
- NoRepeatRuns.SpacedInRuns: with the same two conditions.
- NoRepeatRuns.SpacedInNumbers: with the same two conditions.
- TradeIdentity.MarketKeysDistinct: for markets and outcomes without a colon.
- ReconciliationEvidence.RemovalsJustified: for histories whose calls meet the condition of CallExact,
  which HistoryExactly shows to be necessary; which account a snapshot belongs to is not modelled.
- The price and value filters, rate limits, commitment check and arbitrage, hedge, profit-and-loss and
  roster code: independent early returns or short formulas.
