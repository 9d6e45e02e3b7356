# GEX trading agent: a verified model

The agent buys options when dealer gamma exposure (GEX) and option flow agree, follows each buy order until it fills or is given up, watches the resulting positions for exits, and replays its own rules over historical data. This project models the parts of it that keep state or do arithmetic on money, and proves what they keep over every run.

| files | what they model |
|---|---|
| `Lifecycle`, `OrderManager`, `Ticks`, `PositionStore` | one buy order: track, poll, cancel, re-place along a price ladder, promote a fill, give up |
| `OrderSystem`, `OrderSafety`, `OrderCost`, `OrderLiveness` | the order manager interleaved with a broker that may fill, cancel or reject between any two of its calls |
| `Reconciler`, `Adoption`, `AdoptionSafety`, `StartupSafety` | what a restart puts back while the broker moves on: positions it holds, and orders still working |
| `ExitMonitor`, `ExitTheorems`, `ExitLoop` | the exit decision, its trailing ratchet, its dynamic adjustments, and the live loop around it |
| `RiskEngine`, `RiskTheorems` | the risk gate and its daily kill switch, persisted to a state file |
| `Proposals`, `Watcher` | proposals decided by two clients; alerts and tickers that must not be acted on twice |
| `Replay`, `ReplayTheorems`, `ReplayEntries`, `ReplayResume`, `ReplayNights`, `Harness` | the incremental backtest: entries and exits, ledger, day stepping, saving and resuming, once or every night |
| `GexDetector`, `GexTheorems`, `GexMeaning`, `Metrics`, `ImpliedVol` | regime, walls and flip point; trade and portfolio metrics; implied volatility by bisection |
| `Common`, `Schemas` | shared vocabulary |

What the source changes in place is a class (`OrderLifecycleManager` and `WorkingOrder`, `PositionStore`, `ExitLoop`, `RiskEngine`, `ProposalStore` and `Proposal`, `FlowWatcher`, `BacktestHarness`, `ReplayState`, `BacktestPosition` and `BacktestTradeRecord`); each of its methods is proved to do to the object what a function on values does to the object's abstract state, and the theorems are about those functions.

Money is `real`. Times are whole seconds, dates are day numbers, and UUIDs are counters: a broker order's id is its index among all broker orders, a replay position's id is its index among the records. A position in the store is kept under the order that bought it or, when it was recovered at startup, under its instrument. The clock, the broker's answers, market data, the calendar day and the pluggable policy are arguments.

## Assumptions about the environment

The order results hold in every interleaving of these steps: the broker makes progress on any order that has not ended (fills only grow, ended orders never change), time passes, a buy is submitted and tracked, startup takes up an order that a query listed, and the manager looks an order up, acts on what it saw, gets an answer to a cancel, or gets an answer to a place. What is seen may be out of date by the time it is acted on. Three hypotheses are explicit:

- a place call either has no effect or returns the id of the order it created (`src/trader/live/order_manager.py:456-464`, `src/trader/executor/executor.py:413-415`), which for the retry after an expired token rests on the broker de-duplicating by `ref_id` (`src/trader/rh/mcp_config.py:248-254`);
- looking up a live order never comes back empty (`src/trader/live/order_manager.py:365-369`);
- reports are consistent: processed and cancelled contracts never exceed the quantity, `pending_quantity` is what is left when it is given, and a filled order filled all of at least one contract; for `StoreCostsWhatWasPaid` also, what an order is reported to have cost changes only when more of it has filled.

The first two are not guaranteed by the code. `LostSubmissionSafeIff`, `LostReplacementSafeIff` and `EmptyLookupSafeIff` say exactly when breaking them loses nothing in any run before a restart: when the order was over and what it had filled was in the store already. `LostReplacementExample` and `EmptyLookupExample` are runs that lose five contracts.

## Where the code differs from its documentation

- The exit monitor's docstring (`src/trader/exits/monitor.py:18-47`) lists the earnings gap after the trailing stop. The code checks it right after the profit target (`src/trader/exits/monitor.py:252-253`); the model follows the code.
- Startup adoption says it sweeps every non-terminal state (`src/trader/live/order_manager.py:217`). `unconfirmed` is a working state for the poll (`src/trader/live/order_manager.py:60-61`) and is not swept. And a query that raises is skipped (`src/trader/live/order_manager.py:253-256`), while the retry comes only when nothing at all was adopted (`src/trader/live/order_manager.py:229-233`), so one adopted order hides what the other queries would have shown. `AdoptionTakesIff` and `AdoptionCompleteIff` give the exact condition, `UnconfirmedExample` and `QueryRaisedExample` the two misses.
- Startup calls adoption the only path that takes up orders in flight, filled part included (`scripts/run_live.py:318-322`). Just before, on the same store, reconciliation has already recovered every contract the broker holds, under the instrument (`scripts/run_live.py:315-316`, `src/trader/live/reconciler.py:137`), and the broker does not stand still between the two. What an adopted order had filled before the holdings were listed is counted twice, once per key; what an order filled after that without being adopted is not counted at all. `StartupCountsRightIff` has the difference, and so the exact condition, at any moment of any run from the holdings listing on: contracts counted twice equal contracts left out. `PartFilledExample` is a store of four against two held, `FilledBetweenExample` a store of none against five held and nobody watching them, `FilledThenAdoptedExample` a part-filled adoption that is right. `DoubleCountLasts`: no later run of the order manager repairs a double count. The order results count per order and are unaffected.
- A saved replay drops `peak_premium` and `entry_gex_setup` (`src/trader/backtest/state.py:24-47`), so resuming "exactly where it left off" (`src/trader/backtest/harness.py:235-236`) is not quite what happens. `ResumeRestores` says what is restored, `ResumeShowsIff` when one resume shows the next day, `ResumeAgreesIff` when it shows in any number of days. The nightly track record is loaded and saved around every step (`src/trader/live/backtest_loop.py:255-273`), so there the peak kept "through a dip" (`src/trader/backtest/harness.py:106-108`) never survives: `NightlyNeverTrails`, `NightlyClosesNoEarlier` and, for positions opened on the way, `RecordedClosesNoEarlier` say what that costs under static exits, and `LostPeakExample` is a replay that closes straight through and stays open nightly.
- The sell's `ref_id` is said to make a retry idempotent instead of a double sell (`src/trader/live/exit_loop.py:336-339`). It contains the reason of the exit, which can change between a sell whose reply was lost and its retry: `SoldOnceIff` gives the exact condition on the gates, `SoldOnceStaticIff` on prices, and `SoldTwiceExample` a double sell.

## Model

| member | source | states |
|---|---|---|
| Ticks.RoundToTickIsGreatest | src/trader/rh/ticks.py:21-36 | The rounded price is the greatest positive whole number of ticks not above the price, or one tick when the price is below one |
| Ticks.RoundToTickFixesGrid | src/trader/rh/ticks.py:21-36 | Rounding leaves a price alone exactly when it is already a positive multiple of its tick |
| Ticks.RoundsToItsTick | src/trader/rh/ticks.py:21-36 | The coarse tick applies from the cutoff on, the fine one below it, a cent without a usable rule; the rounded price is the last such tick at or below the price |
| Lifecycle.ReplacementPriceBounds | src/trader/live/order_manager.py:476-503 | A replacement price is on the tick grid, positive, at most the larger of one tick and the capped ladder price, the best such price; it respects the cap exactly when the tick does |
| Lifecycle.LadderClimbs | src/trader/live/order_manager.py:489-499 | On any one quote the ladder starts at the mid, is halfway to the ask at the second attempt and at the ask from the third on, and moves one way only (up, or down when the mid is above the ask) |
| Lifecycle.MidOfQuote | src/trader/live/order_manager.py:476-503 | The mid is the mark, or else halfway between bid and ask; without an ask every attempt stays at the mid, and without a mid there is no price |
| Lifecycle.FillIsBookedAtCost | src/trader/live/order_manager.py:521-568 | An ended order with a fill becomes a position whose entry premium, over all its shares, is what the broker was paid, or else the order's limit; contract, target, entry setup, instrument and time are those of the tracked order, its candidate and the poll |
| Lifecycle.ReplacedIff | src/trader/live/order_manager.py:387-474 | An order that ended unfilled is placed again exactly when it was cancelled to be re-placed, has replacements left, and option, quote and new id are there; the same record goes on with the price, count and times named; otherwise it is dropped |
| Lifecycle.UnknownAndMissing | src/trader/live/order_manager.py:365-417 | A lookup that finds nothing drops the order, a state the manager does not know changes nothing but the option id |
| Lifecycle.TrackRegisters | src/trader/live/order_manager.py:181-198 | A placed buy starts at its limit, or at the middle of the candidate's quote without one, with nothing asked of the broker yet; other orders and the store stay |
| Lifecycle.CheckIsLocal | src/trader/live/order_manager.py:360-417 | A poll changes only the polled order: its key is dropped, or replaced by the key of its successor; every other order and position stays |
| OrderManagers.OrderLifecycleManager.Track | src/trader/live/order_manager.py:181-198 | A placed buy with a contract is registered under its id with the request's quantity and price; anything else is ignored |
| OrderManagers.OrderLifecycleManager.Adopt | src/trader/live/order_manager.py:263-332 | Adopts an unknown buy-to-open order: filled part into the store, remainder tracked; the result tells whether it was adopted |
| OrderManagers.OrderLifecycleManager.OpenFilledPart | src/trader/live/order_manager.py:287-305 | Contracts already filled become a position at their average cost, and nothing else changes |
| OrderManagers.OrderLifecycleManager.TrackRemainder | src/trader/live/order_manager.py:307-332 | What is left of an adopted order is tracked under its id, as given up when its cancel is pending, and nothing else changes; with nothing left nothing changes |
| OrderManagers.OrderLifecycleManager.SweepOrders | src/trader/live/order_manager.py:244-261 | Four queries in order, each with an answer of its own or raising and skipped; counts the orders it took |
| OrderManagers.OrderLifecycleManager.SweepOneState | src/trader/live/order_manager.py:258-260 | Adopts the orders of one answer in turn, and counts those it took |
| OrderManagers.OrderLifecycleManager.AdoptWorkingOrders | src/trader/live/order_manager.py:214-242 | Sweeps, and sweeps again with fresh answers when the first took nothing; a count of zero means nothing changed |
| OrderManagers.OrderLifecycleManager.CheckOrder | src/trader/live/order_manager.py:360-417 | One whole poll of a mutable order against the broker's answers, on every branch |
| OrderManagers.OrderLifecycleManager.Finish | src/trader/live/order_manager.py:379-399 | An ended order is promoted when anything filled, re-placed after a reprice cancel, dropped otherwise |
| OrderManagers.OrderLifecycleManager.Follow | src/trader/live/order_manager.py:401-417 | An order that has not ended stays tracked under its id and only its own record may change |
| OrderManagers.OrderLifecycleManager.Chase | src/trader/live/order_manager.py:409-417 | A working order past the give-up age is cancelled for good, one past the reprice age is cancelled to be re-placed |
| OrderManagers.OrderLifecycleManager.RequestCancel | src/trader/live/order_manager.py:423-435 | Only a cancel call that went through marks the order as cancelling |
| OrderManagers.OrderLifecycleManager.PlaceReplacement | src/trader/live/order_manager.py:437-474 | The same record continues under the new id and price, or is gone when there is no option id, no quote or no order id |
| OrderManagers.OrderLifecycleManager.Reenter | src/trader/live/order_manager.py:465-470 | The record changes id, price, attempts, flag and action time, nothing else, and is the only entry added |
| OrderManagers.OrderLifecycleManager.NextLimit | src/trader/live/order_manager.py:476-503 | The ladder price, capped and rounded; the tick rule is remembered only once a price was computed |
| OrderManagers.OrderLifecycleManager.PromoteFill | src/trader/live/order_manager.py:521-547 | The order leaves the dictionary and its position, at the average fill when that is reported, overwrites the same key of the store |
| PositionStores.PositionStore.Add | src/trader/live/position_store.py:52-54 | Adding overwrites by id |
| PositionStores.PositionStore.Remove | src/trader/live/position_store.py:56-58 | Removing an unknown id changes nothing |
| PositionStores.PositionStore.Get | src/trader/live/position_store.py:64-66 | Finds the position of an id, if any |
| OrderSystem.StepKeepsInv | src/trader/live/order_manager.py:263-474 | Every step of broker, manager or startup keeps the invariant: chains end dead before a successor, every fill accounted for, records in step with the broker |
| OrderSafety.RunKeepsInv | src/trader/live/order_manager.py:338-474 | The invariant holds after every run of steps |
| OrderSafety.PollStepsAreCheck | src/trader/live/order_manager.py:360-417 | A poll that nothing interrupts is the step machine's lookup, decision and answer, so the runs are runs of the verified poll |
| OrderSafety.EveryInterleavingIsSafe | src/trader/live/order_manager.py:360-547 | In every interleaving, over any recovered positions, an intent has at most one order that has not ended, its replacements fill at most what was wanted over at most max_replacements + 1 orders, and every filled contract is with a tracked order or in the store under its order with exactly the broker's quantity |
| OrderSafety.ForgottenUntilAdopted | src/trader/live/order_manager.py:365-369 | Until a restart adopts it, an order the manager has forgotten is tracked again in no run, faults included, and what it fills from then on never reaches the store |
| OrderSafety.EmptyLookupSafeIff | src/trader/live/order_manager.py:365-369 | Dropping an order whose lookup is empty loses nothing in any run before a restart exactly when the order was over and what it had filled was in the store |
| OrderSafety.EmptyLookupExample | src/trader/live/order_manager.py:365-369 | A run in which five contracts fill after one empty lookup and the manager has neither order nor position |
| OrderSafety.LostReplacementSafeIff | src/trader/live/order_manager.py:454-464 | Losing a replacement's id loses nothing in any run before a restart exactly when that order was over at once without a fill |
| OrderSafety.LostSubmissionSafeIff | src/trader/executor/executor.py:413-415 | Losing the id of a first order loses nothing in any run before a restart exactly when that order was over at once without a fill |
| OrderSafety.LostReplacementExample | src/trader/live/order_manager.py:454-464 | A run at the default settings in which a replacement's id is lost, it fills five contracts, and the manager has neither order nor position |
| OrderSafety.TrackedGivingUpAbandons | src/trader/live/order_manager.py:412-414 | Setting `giving_up` on a tracked order abandons its intent |
| OrderSafety.GivingUpIsFinal | src/trader/live/order_manager.py:388-414 | In every run from there the flag is never unset and no order is placed for the intent again |
| OrderSafety.GateCapsLimit | src/trader/risk/engine.py:105-112 | A candidate the risk gate approved goes out at a limit within the same cap, when its tick is |
| OrderSafety.IntentStaysWithinBudget | src/trader/live/order_manager.py:476-503 | Over all its replacements an intent for Q contracts spends at most Q x 100 x the per-share cap, when its candidate passed the risk gate (or, for an adopted order, its limit was within the cap) and the ticks are within the cap |
| OrderCosts.StoreCostsWhatWasPaid | src/trader/live/order_manager.py:263-568 | In every interleaving, once an order is no longer tracked the store holds exactly the contracts it filled, and when their cost is reported the entry premiums over all shares add up to exactly that |
| OrderLiveness.PollDecreases | src/trader/live/order_manager.py:401-417 | Every poll that leaves the order tracked lowers a bounded measure of time to give up, failing cancels and cancel progress |
| OrderLiveness.EveryOrderLeaves | src/trader/live/order_manager.py:353-417 | With an advancing clock, cancels that settle and finitely many failing cancel calls, an order polled more often than its measure has left |
| OrderLiveness.FreshOrderBound | src/trader/live/order_manager.py:353-417 | For a fresh order (patience + 2) x give_up_after + failures + patience + 2 polls are enough |
| OrderLiveness.ManagerForgetsIt | src/trader/live/order_manager.py:387-388 | Once it has left, the dictionary is what it was without the order, whatever ids its replacements had |
| OrderLiveness.CancelledExactlyWhenDue | src/trader/live/order_manager.py:406-417 | After a poll of a working order it waits for a cancel exactly when it did before, or one of the two deadlines has passed and the cancel call went through; it is given up exactly when it is too old; nothing else changes but the option id and the time of the cancel |
| Adoption.SweepIsPointwise | src/trader/live/order_manager.py:244-261 | What a sweep leaves at an id depends on that id's own listings alone, however often and in whatever answers it is listed; an id nobody lists is untouched |
| Adoption.AdoptedAtCost | src/trader/live/order_manager.py:263-332 | One adoption in the broker's terms: what filled is a position at what was paid, or the limit; what is left is tracked at the limit; an order already tracked, no buy to open or unreadable changes nothing |
| Adoption.SweepTracksIff | src/trader/live/order_manager.py:244-285 | Whatever the answers, an order is tracked afterwards exactly when it was before or some answer listed it as a buy to open with contracts left; one tracked before is left alone |
| Adoption.SweepCountZeroIff | src/trader/live/order_manager.py:229-233 | A sweep reports zero exactly when no query that answered listed an order to take, and then changed nothing |
| AdoptionSafety.AdoptionSplitsContracts | src/trader/live/order_manager.py:287-332 | At any reachable state adopted position plus working quantity is total minus cancelled, also when the order was adopted before; a pending cancel is adopted as given up |
| AdoptionSafety.SecondSweepChangesNothing | src/trader/live/order_manager.py:263-332 | While the broker stands still, a second sweep in which no query answers that raised in the first changes nothing but adoption times |
| AdoptionSafety.AnyNumberOfSweeps | src/trader/live/order_manager.py:229-261 | While the broker stands still, any number of sweeps, whichever queries raise in each, leave what one sweep leaves in which just the queries answer that ever did |
| AdoptionSafety.ResolutionOverwrites | src/trader/live/order_manager.py:521-547 | When a tracked order ends with fills, promotion overwrites what adoption put under its key with the broker's total |
| AdoptionSafety.AdoptionCompleteIff | src/trader/live/order_manager.py:208-233 | All open buys still working are adopted exactly when, in the sweep that counted, none of them was `unconfirmed` or in a state whose query raised |
| AdoptionSafety.AdoptionTakesIff | src/trader/live/order_manager.py:208-261 | The same for each single order, with two listings and any queries raising |
| AdoptionSafety.UnconfirmedExample | src/trader/live/order_manager.py:208-212 | One unconfirmed buy of five contracts at startup, and it is not tracked |
| AdoptionSafety.QueryRaisedExample | src/trader/live/order_manager.py:229-261 | A queued and a confirmed buy, of which only the query for `queued` answers: the one is adopted, so there is no retry, and the other is never tracked |
| AdoptionSafety.AdoptionStartsSafely | src/trader/live/order_manager.py:214-332 | Startup adoption with queries that raise, a broker that moves between them, answers in any order with orders repeated or left out, and the retry, over any recovered store, is a run of the step machine, so all run results hold through it |
| AdoptionSafety.PendingCancelNeverReplaced | src/trader/live/order_manager.py:315-329 | In every run after its adoption, an order adopted with its cancel pending is never placed again |
| Reconcilers.ReconcilePositions | src/trader/live/reconciler.py:194-262 | Every usable holding of the listing, or of the second one when the first is empty, goes into the store under its instrument; the result counts them |
| Reconcilers.RecoveredAtAveragePrice | src/trader/live/reconciler.py:61-138 | A recovered position's entry premium times a hundred is the average price per contract; quantity, contract, instrument and time are the holding's, without target, peak or entry setup |
| Reconcilers.ReconciledFromLast | src/trader/live/reconciler.py:229-262 | Under each key the store has the last complete holding listed with it, and keeps what it had when there is none |
| Reconcilers.AnswerIs | src/trader/live/reconciler.py:207-228 | The first listing counts, or the second after an empty first; nothing when one that is needed raises |
| Reconcilers.CountsComplete | src/trader/live/reconciler.py:229-262 | The count is the number of complete holdings listed |
| StartupSafety.StartupCountsRightIff | scripts/run_live.py:314-324 | At any moment of any fault-free run from the holdings listing on, through adoption and after: what the store counts on an instrument is what the broker holds, plus the contracts counted twice, minus those missed, not booked yet or not recovered, so the two are equal exactly when these balance |
| StartupSafety.PartFilledExample | scripts/run_live.py:314-324 | An order for five with two filled when the holdings are listed, then adopted: two held, four in the store |
| StartupSafety.FilledBetweenExample | scripts/run_live.py:314-324 | An order for five that fills between the holdings listing and the sweep: five held, none in the store, nothing tracked |
| StartupSafety.FilledThenAdoptedExample | scripts/run_live.py:314-324 | An order with two filled after the holdings listing and adopted part-filled: two held, two in the store |
| StartupSafety.RunOnlyAdds | src/trader/live/order_manager.py:263-547 | No run, startup included, changes a recovered position or lowers what the store holds for an order |
| StartupSafety.DoubleCountLasts | src/trader/live/order_manager.py:521-547 | In every run after an order was adopted, the store's total on its instrument, with what is missed, not booked or not recovered, exceeds what the broker holds by at least what the order had filled before the holdings listing |
| ExitMonitors.ClosestIndex | src/trader/exits/schemas.py:68-73 | The first IV entry whose horizon is closest to the days to expiry |
| ExitMonitors.LatestIndex | src/trader/exits/schemas.py:75-85 | The last indicator row among those with the latest timestamp |
| ExitTheorems.FirstInPriority | src/trader/exits/monitor.py:186-281 | For every monitor, a reason is given exactly when its gate holds and no gate before it in the order does, and none exactly when no gate holds |
| ExitTheorems.StaticSignalIff | src/trader/exits/monitor.py:240-281 | For a static monitor the gates are comparisons of prices in dollars; the trailing stop fires once the peak is up by the activation share and at least the giveback share of its gain is gone |
| ExitTheorems.DynamicSignalIff | src/trader/exits/monitor.py:186-281 | For a dynamic monitor the gates are comparisons of prices with band, stop and giveback scaled by the tilt of the IV percentile, by RSI and MACD, by the spread and by earnings, and of the live structure with the one at entry |
| ExitTheorems.SignalReports | src/trader/exits/monitor.py:159-180 | A signal carries the premium, the entry, the days left and the ratio whose product with the entry is the gain |
| ExitTheorems.ContextReads | src/trader/exits/schemas.py:68-85 | The percentile is read at a horizon no other entry is closer to, the indicators at the latest timestamp |
| ExitTheorems.PeakIsRunningMaximum | src/trader/live/exit_loop.py:166-171 | After any series of premiums the stored peak is their maximum |
| ExitTheorems.RatchetNeverSlips | src/trader/exits/monitor.py:265-273 | Later premiums never disarm the trailing stop, lower its floor, or un-fire it |
| ExitTheorems.ArmedSilenceMeansProfit | src/trader/exits/monitor.py:265-273 | Once a premium reached entry x (1 + activation), a tick without a signal leaves more than the share 1 - giveback of the gain at the highest premium |
| ExitTheorems.LowerPeakFiresLess | src/trader/exits/monitor.py:265-273 | With a lower peak a static exit fires at most when it would with the higher one |
| ExitTheorems.PeaksDifferIff | src/trader/exits/monitor.py:265-273 | Two remembered peaks decide the next tick differently exactly when neither wall nor thesis decides it and the premium is at or below the floor of the higher one but not of the lower |
| ExitTheorems.LostPeakMattersIff | src/trader/exits/monitor.py:265-273 | Forgetting the peak changes the next decision exactly when neither wall nor thesis decides it and the premium is at or below the floor of a remembered, armed peak |
| ExitTheorems.StaticIgnoresTheRest | src/trader/exits/monitor.py:197-263 | With dynamic exits off, context, earnings, spread, live walls, confidences, entry snapshot and all dynamic settings make no difference |
| ExitTheorems.DynamicIsConservative | src/trader/exits/monitor.py:96-105 | With dynamic exits on but none of their inputs available the decision is the static one |
| ExitTheorems.Multipliers | src/trader/exits/monitor.py:283-293 | The two IV multipliers sum to 2 and stay within 1 plus or minus the maximum adjustment |
| ExitTheorems.HigherIvMonotone | src/trader/exits/monitor.py:204-276 | A higher IV percentile never un-fires profit target or trailing stop and never newly fires the stop-loss |
| ExitTheorems.EarningsStopNotWider | src/trader/exits/monitor.py:231-238 | Near earnings a losing position's stop is never wider than the static one |
| ExitTheorems.MomentumMonotone | src/trader/exits/monitor.py:314-340 | Stronger indicators never weaken the signal for a call nor strengthen it for a put |
| ExitTheorems.MomentumMirrors | src/trader/exits/monitor.py:326-340 | A put reads mirrored indicators as a call reads the originals |
| ExitTheorems.WeakerMarketTakesProfitSooner | src/trader/exits/monitor.py:216-250 | Weaker momentum or a wider spread never un-fires the profit target |
| ExitTheorems.DecayIsMonotone | src/trader/exits/monitor.py:342-366 | The entry setup itself has not decayed, and a weaker structure never cures decay |
| ExitLoops.ExitLoop.EvaluatePosition | src/trader/live/exit_loop.py:155-191 | No data changes nothing; otherwise the peak is stored first, and a limit is sent exactly when a live signal sold, at the tick below the exit price |
| ExitLoops.ExitLoop.ExecuteExit | src/trader/live/exit_loop.py:302-357 | A sell that raises keeps the position; otherwise it is removed and, unless dry, (premium - entry) x 100 x quantity added to the day's P&L |
| ExitLoops.ExitIsBookedOnce | src/trader/live/exit_loop.py:155-191 | Over any run of ticks a position either stays with the running maximum as peak and nothing booked, or is gone and (premium - entry) x 100 x quantity of the tick it left on has been booked once, with switch and state file following |
| ExitLoops.CostPlusGain | src/trader/live/exit_loop.py:353-355 | What the contracts cost plus what is booked is what they are worth at the exit |
| ExitLoops.LeavesAtFirstSale | src/trader/live/exit_loop.py:155-191 | The tick a position leaves on is the first that is quoted, has a gate holding at the peak so far, and sells (or is dry) |
| ExitLoops.ExitNeverAsksMore | src/trader/live/exit_loop.py:396-411 | The sell limit is 5% below the premium for the two stops, 3% below in a wide market, both at least a cent, else the premium; rounded it is positive, on the grid, and at most the largest of one tick, one cent and the premium |
| ExitLoops.SoldOnceIff | src/trader/live/exit_loop.py:336-349 | For any monitor and any run of ticks the broker is asked to sell a position at most once exactly when there is one reason such that, on every tick up to the one it leaves on whose sell is not refused, no gate holds or the reason's gate is the first in priority that does |
| ExitLoops.SoldOnceStaticIff | src/trader/live/exit_loop.py:336-349 | For a static monitor, the same with the gates as comparisons of prices in dollars |
| ExitLoops.SoldOnceWithoutLoss | src/trader/live/exit_loop.py:336-349 | When no reply was lost the position is sold at most once |
| ExitLoops.SoldTwiceExample | src/trader/live/exit_loop.py:336-349 | A stop-loss whose reply was lost, then an expiry stop: the position is sold twice |
| RiskEngines.RiskEngine.constructor | src/trader/risk/engine.py:50-80 | Starts from a state file of today, deletes a stale one, and trips at once when the loaded or injected P&L is over the limit |
| RiskEngines.RiskEngine.LoadState | src/trader/risk/engine.py:186-224 | Loads today's values and otherwise leaves memory alone and no stale file behind |
| RiskEngines.RiskEngine.EvaluateThreshold | src/trader/risk/engine.py:146-154 | The switch is on afterwards exactly when it was or there is an account and the P&L is at most minus nav x daily_loss_kill_pct; persists when it goes on |
| RiskEngines.RiskEngine.MaybeRollDay | src/trader/risk/engine.py:156-177 | A new day clears P&L and switch and persists; the same day changes nothing |
| RiskEngines.RiskEngine.RecordPnl | src/trader/risk/engine.py:131-136 | Rolls the day, adds, evaluates, persists |
| RiskEngines.RiskEngine.Check | src/trader/risk/engine.py:86-123 | Rolls the day, then refuses for the switch alone or for every other gate that is closed, in order |
| RiskTheorems.RunStaysInSync | src/trader/risk/engine.py:72-80 | After any history the state file shows what memory shows for today and every later day, and P&L over the limit always has the switch on |
| RiskTheorems.RestartsAreInvisible | src/trader/risk/engine.py:72-177 | Restarting between any two calls changes no verdict, no later daily P&L and no later switch |
| RiskTheorems.KillSwitchIff | src/trader/risk/engine.py:131-177 | The day's P&L is the sum of what was recorded that day, and the switch is on exactly when there is an account and some prefix of it is at most minus nav x daily_loss_kill_pct |
| RiskTheorems.StartsFrom | src/trader/risk/engine.py:50-80 | A restart takes over today's file, deletes any other and begins with the injected P&L; a loss at the limit trips at once and is persisted |
| RiskTheorems.ApprovalMeans | src/trader/risk/engine.py:86-123 | Each refusal is given exactly when its gate is closed, the switch alone when it is on; an approval is exactly: switch off, below the position cap, a hundred shares at the middle of the quote within the premium cap, sector below its cap |
| ProposalStores.ProposalStore.Prune | src/trader/live/proposals.py:126-139 | Drops exactly the decided or expired proposals past retention |
| ProposalStores.ProposalStore.Add | src/trader/live/proposals.py:141-151 | A fresh id, pending, after pruning |
| ProposalStores.ProposalStore.ListPending | src/trader/live/proposals.py:157-169 | Expires late proposals and returns exactly those still pending |
| ProposalStores.ProposalStore.ExpireLate | src/trader/live/proposals.py:161-169 | Expires every late proposal, changes no other, and returns those still pending |
| ProposalStores.ProposalStore.Approve | src/trader/live/proposals.py:171-185 | Returns the proposal exactly when it was pending and in time; a late one expires |
| ProposalStores.ProposalStore.Reject | src/trader/live/proposals.py:187-196 | Returns the proposal exactly when it was pending |
| ProposalStores.ProposalStore.MarkExecuted | src/trader/live/proposals.py:198-203 | Marks a known proposal executed, ignores an unknown one |
| ProposalStores.StepFacts | src/trader/live/proposals.py:126-203 | No call reopens a closed proposal, a decision closes it, a pending one is never pruned and keeps its creation time |
| ProposalStores.CallOutcome | src/trader/live/proposals.py:171-203 | What approving, rejecting and marking leave of the proposal, status by status, and that no other changes; a call decides exactly a pending proposal, an approval within half an hour of its creation |
| ProposalStores.ListOutcome | src/trader/live/proposals.py:126-169 | A listing shows exactly what is pending and in time, expires what is late, and forgets exactly what closed more than an hour ago |
| ProposalStores.AddOutcome | src/trader/live/proposals.py:141-151 | A proposal added is pending under a new id, and nothing else is new |
| ProposalStores.AtMostOneDecision | src/trader/live/proposals.py:171-196 | Over any interleaving of calls approve and reject together succeed at most once per id |
| ProposalStores.ExecutedAtMostOnce | src/trader/live/approval_server.py:1615-1653 | When clients run an order only for an approval that returned the proposal, each proposal is run at most once, whether or not running or marking raises |
| ProposalStores.PendingOnlyOnce | src/trader/live/proposals.py:126-203 | Once not pending, never pending again |
| ProposalStores.ApprovedInTime | src/trader/live/proposals.py:171-185 | An approval succeeds only within the time to live; a later one expires the proposal |
| Watchers.FlowWatcher.FilterNew | src/trader/live/watcher.py:203-216 | Returns the watched alerts with new keys and remembers them, trimmed to the most recent 5,000 past 10,000 |
| Watchers.FlowWatcher.RecentlyAttempted | src/trader/live/watcher.py:218-223 | True exactly within the cooldown of the last attempt |
| Watchers.FlowWatcher.RecordAttempt | src/trader/live/watcher.py:225-234 | Records the attempt; up to 200 tickers nothing is forgotten, past that nothing within the cooldown |
| Watchers.FlowWatcher.Ask | src/trader/live/watcher.py:284-292 | Lets a ticker through exactly when its last attempt is more than half an hour ago and no position is held |
| Watchers.NewAlertsAreNew | src/trader/live/watcher.py:203-212 | One call returns each new watched key once and misses none |
| Watchers.AlwaysRemembers | src/trader/live/watcher.py:213-216 | After any polls the memory is a recent stretch of all keys ever returned, at least 5,000 (or all) and at most 10,000 |
| Watchers.NoRepeatWithinMemory | src/trader/live/watcher.py:203-216 | After any polls none of the last 5,000 keys returned is returned again |
| Watchers.PruningIsInvisible | src/trader/live/watcher.py:218-234 | With a clock that never runs back, and pipelines alternating, the pruned map answers as the full attempt history would, now and later |
| Watchers.AttemptsAreSpaced | src/trader/live/watcher.py:284-294 | However the pipelines of different tickers alternate between asking and recording, two attempts on one ticker are more than the cooldown apart |
| Watchers.LetThroughIff | src/trader/live/watcher.py:218-294 | Whatever happened before, a ticker is let through exactly when no position is held and every attempt on it so far is more than half an hour old |
| Harnesses.BacktestTradeRecord.Close | src/trader/backtest/schemas.py:88-93 | Books exit date, signal, ratio and dollars (ratio times entry cost) and marks closed |
| Harnesses.BacktestTradeRecord.Expire | src/trader/backtest/schemas.py:95-98 | Marks expired, keeps everything else |
| Harnesses.BacktestHarness.ExitOne | src/trader/backtest/harness.py:104-130 | One open position: remember its peak, close its record or leave it; no other record changes |
| Harnesses.BacktestHarness.ExitEach | src/trader/backtest/harness.py:103-131 | The exit loop over shared objects is the exit pass on values |
| Harnesses.BacktestHarness.RunExits | src/trader/backtest/harness.py:102-131 | The open list becomes exactly the positions that stayed, cash grows by the proceeds |
| Harnesses.BacktestHarness.OpenPosition | src/trader/backtest/harness.py:159-179 | One new object shared by open list and records; cash falls by its cost when simulating |
| Harnesses.BacktestHarness.ScanEntries | src/trader/backtest/harness.py:145-179 | Candidates in order, up to the cap, skipping what cash cannot pay for, as `ReplayEntries.ScanTakesExactly` describes it |
| Harnesses.BacktestHarness.MarkToMarket | src/trader/backtest/harness.py:192-199 | Value of all open positions, with the entry premium where there is no quote |
| Harnesses.BacktestHarness.StepOneDay | src/trader/backtest/harness.py:94-202 | A whole day on the heap is the day on values, and every open position is still the object its record holds |
| Harnesses.BacktestHarness.Walk | src/trader/backtest/harness.py:245-251 | A walk over the available dates skips the processed ones and those outside the window |
| Harnesses.BacktestHarness.Forward | src/trader/backtest/harness.py:229-253 | One in-memory `step_forward` |
| Harnesses.BacktestHarness.Run | src/trader/backtest/harness.py:204-227 | Its own walk over the dates inside the window, then every open record expired |
| Harnesses.ToDict | src/trader/backtest/state.py:96-103 | Saving writes open ids, records, cash, curve and dates |
| Harnesses.FromDict | src/trader/backtest/state.py:105-118 | For any document: fresh objects, each open position the object of the last record with that id, unknown ids dropped; a document that was saved loads to a state the harness can step |
| Replay.ExitPassSteps | src/trader/backtest/harness.py:102-131 | A pass steps exactly the open records and keeps open exactly those without a signal, in order |
| Replay.DayKeepsExact | src/trader/backtest/harness.py:94-179 | After a day the open list is exactly the open-status records, within the cap; old closed records are untouched |
| ReplayEntries.ScanTakesExactly | src/trader/backtest/harness.py:145-179 | The scan takes exactly the candidates the policy enters for which there is room below the cap and cash when their turn comes, in order, each at the middle of its quote, sized on and paid from the cash left |
| ReplayEntries.OpensAllThatFit | src/trader/backtest/harness.py:145-179 | Without simulated cash a scan opens as many positions as the policy enters and the cap has room for |
| ReplayEntries.ExitBooksDifference | src/trader/backtest/harness.py:104-130 | The policy sees the position with its peak raised to the day's quote; a signal closes the record with (exit - entry) x 100 x contracts and brings in the exit premium of all its shares; without one only the peak changes |
| ReplayEntries.DayExitsThenScans | src/trader/backtest/harness.py:94-179 | A day asks about every open position first and then scans the candidates over the room and the cash the exits left |
| ReplayTheorems.BooksBalanceEveryDay | src/trader/backtest/harness.py:94-202 | At every day boundary cash is non-negative, the cap holds, and cash plus open entry costs is initial capital plus closed P&L |
| ReplayTheorems.FreshBalances | src/trader/backtest/harness.py:240-243 | A fresh replay starts balanced |
| ReplayTheorems.EquityIsRealizedPlusUnrealized | src/trader/backtest/harness.py:191-200 | A balanced book's snapshot is initial capital plus realized P&L plus, for each open position quoted that day, its unrealized P&L |
| ReplayTheorems.EquityCurveIsPnl | src/trader/backtest/harness.py:191-202 | Every snapshot a run adds to the equity curve is initial capital plus realized and unrealized P&L of the records as they stood that evening |
| ReplayTheorems.BudgetRespected | src/trader/backtest/harness.py:85-92 | Sizes lie in 1..10, more than one contract fits the budget at a hundred shares each, and one more would not |
| ReplayTheorems.ProcessedAre | src/trader/backtest/harness.py:245-251 | The dates processed are exactly the new ones inside the window, in order |
| ReplayTheorems.NoDateTwice | src/trader/backtest/harness.py:245-251 | No date is processed twice |
| ReplayTheorems.SteppingInPieces | src/trader/backtest/harness.py:229-253 | Stepping a prefix and later everything is stepping everything at once; a call with nothing new changes nothing |
| ReplayTheorems.RunIsStepThenExpire | src/trader/backtest/harness.py:204-221 | The walk of `run`, which remembers no dates, is one fresh `step_forward`, and its records are those with every open one expired |
| ReplayResume.ResumeRestores | src/trader/backtest/state.py:96-118 | Loading what was saved restores everything but peaks and entry setups, can be stepped, and saves as the same document |
| ReplayResume.ByIdIsLast | src/trader/backtest/state.py:105-118 | Of the records with one id the last counts |
| ReplayResume.ResolvedAre | src/trader/backtest/state.py:105-118 | The open positions of a loaded document are the records of its known ids; unknown ids are dropped |
| ReplayResume.ResolvedInOrder | src/trader/backtest/state.py:105-118 | They come in the order of the ids |
| ReplayResume.StandardIsHonest | src/trader/backtest/policy.py:131-159 | With non-negative quotes and positive entry mids the standard policy satisfies the ledger's premise |
| ReplayResume.StandardExitIff | src/trader/backtest/policy.py:131-159 | Under static exits a day closes a position exactly when it is quoted and a gate holds, counting no days left after expiry |
| ReplayResume.RecordsEvolveAlone | src/trader/backtest/harness.py:104-130 | What becomes of a record depends on no other position, only on the days processed |
| ReplayResume.OpenRecordTracksPeak | src/trader/backtest/harness.py:105-112 | While a replayed position stays open its peak is the running maximum of its quotes, as in the live loop |
| ReplayResume.OpenMeansProfit | src/trader/backtest/harness.py:104-130 | Once a quote reached entry x (1 + activation), a quoted day that leaves a replayed position open leaves more than the share 1 - giveback of the gain at its highest quote |
| ReplayResume.ResumedExitsNoEarlier | src/trader/backtest/state.py:24-47 | Under static exits a replay resumed once has closed a saved position by a date only if the uninterrupted one has |
| ReplayNights.LastNight | src/trader/live/backtest_loop.py:255-273 | A night steps exactly the dates it brings, although all earlier ones are available too, and then drops peaks and entry setups |
| ReplayNights.ResumeShowsIff | src/trader/backtest/state.py:24-47 | The day after a resume decides differently for a position exactly when it is quoted, neither wall nor thesis decides, and the premium is at or below the floor of the peak that was not saved |
| ReplayNights.ResumeAgreesIff | src/trader/backtest/state.py:24-47 | Over any dates the resumed and the uninterrupted replay end with the same record of an open position, unsaved fields apart, exactly when no processed day, before which no gate held, has its premium between the giveback floors of the highest quote since the resume and of the highest quote since entry with neither wall nor thesis deciding |
| ReplayNights.NightlyNeverTrails | src/trader/live/backtest_loop.py:255-273 | A static track record with positive giveback, saved and loaded after every date, never closes anything by the trailing stop |
| ReplayNights.NightlyClosesNoEarlier | src/trader/live/backtest_loop.py:255-273 | Saved and loaded every night, whatever dates each night brings, a position recorded before the first night is closed by some night only if the uninterrupted replay has closed it by then |
| ReplayNights.RecordedClosesNoEarlier | src/trader/live/backtest_loop.py:255-273 | A position recorded by the end of any night, opened then or before, is closed by a later night only if it is closed by then when it goes on from that night's end uninterrupted over the dates processed since |
| ReplayNights.LostPeakExample | src/trader/live/backtest_loop.py:255-273 | A replay of three days from a fresh state: straight through it closes by the trailing stop, nightly the position stays open |
| GexTheorems.SortSorts | src/trader/gex/detector.py:40 | Sorting keeps the strikes and orders them |
| GexTheorems.FlipPointIff | src/trader/gex/detector.py:100-119 | A flip point exists exactly when net GEX changes sign along the ladder, and lies between the first neighbours where it does |
| GexTheorems.CallWallIsHighest | src/trader/gex/detector.py:121-136 | The call wall is a strike above spot with the highest positive net GEX, missing exactly when there is none |
| GexTheorems.PutWallIsLowest | src/trader/gex/detector.py:138-153 | The put wall is a strike below spot with the most negative net GEX, missing exactly when there is none |
| GexTheorems.TargetOnTheRightSide | src/trader/gex/detector.py:155-194 | A target is above spot for a call and below it for a put; a put only below the flip point of a negative regime |
| GexTheorems.ConfidenceInUnit | src/trader/gex/detector.py:45-60 | Structure confidence lies in [0, 1] |
| GexTheorems.RegimeMatchesSign | src/trader/gex/detector.py:49-69 | A regime carries the sign of total net GEX, only a mixed one does not trade, and any trade has the confidence asked for |
| GexTheorems.DetectIsScaleFree | src/trader/gex/detector.py:30-94 | Scaling all GEX by a positive factor changes nothing but the walls' recorded GEX |
| GexMeaning.RegimeMeans | src/trader/gex/detector.py:40-69 | Confidence times gross GEX is the smaller of the three largest strikes' GEX and the size of the net; the regime is positive or negative exactly when confidence suffices and the net passes that share of the gross |
| GexMeaning.NothingDetected | src/trader/gex/detector.py:38-44 | Without any GEX the setup is empty and does not trade |
| GexMeaning.DirectionMeans | src/trader/gex/detector.py:155-194 | A negative regime with spot below the flip point goes to a put at the put wall, every other positive or negative one to a call at the call wall, a mixed one nowhere |
| GexMeaning.WallsMean | src/trader/gex/detector.py:121-153 | The walls are the strikes of largest positive net GEX above spot and most negative below it, the lowest of equals, at their distance as a share of spot, and missing exactly when there are none |
| GexMeaning.FlipMeans | src/trader/gex/detector.py:100-119 | The flip point is where the line through the first neighbours on different sides of zero is zero, and missing exactly when there are none |
| Metrics.ComputeBacktestResult | src/trader/backtest/metrics.py:117-149 | Overall and per regime, setup and combination metrics, and portfolio metrics exactly when both inputs are there |
| Metrics.SlicesSumToOverall | src/trader/backtest/metrics.py:125-147 | Trade, closed and win counts and total P&L summed over the groups of any key are the overall figures |
| Metrics.MetricsMean | src/trader/backtest/metrics.py:49-70 | Closed and won are the numbers of such trades, total is their sum, win rate and average are the shares of them, and worst is one of them and above none; all zero when nothing closed |
| Metrics.GroupsAreThose | src/trader/backtest/metrics.py:125-147 | There is a group for each key that occurs, holding the trades with that key in order |
| Metrics.Least | src/trader/backtest/metrics.py:60 | The worst trade is one of the trades and none is worse |
| Metrics.ScanCurve | src/trader/backtest/metrics.py:92-100 | The one pass finds the maximum of the curve with the initial capital in front and the least difference between a value and an earlier one |
| Metrics.ComputePortfolio | src/trader/backtest/metrics.py:74-114 | Final value, P&L, return, peak and drawdown, for the empty curve and a zero capital too |
| ImpliedVol.ImpliedVolatility | scripts/fetch_polygon_history.py:142-164 | Bad input gives 0.20; otherwise the loop stops by width after 16 halvings in a bracket the price splits |
| ImpliedVol.SixteenHalvings | scripts/fetch_polygon_history.py:155-163 | Sixteen halvings of [0.01, 5] are the first to go below 0.0001 |
| ImpliedVol.AnswerIsClose | scripts/fetch_polygon_history.py:142-164 | For an increasing price function the answer is within 0.00005 of any solution, and of the end of the range beyond it |

## Left out

- Network calls, file access, Telegram, the dashboard, telemetry and logging: they are arguments, steps of the environment, or absent; `to_dict` and the state file are writes of an abstract value that succeed and read back.
- Payload shapes (`_order_payload`, `_parse_quote`, `OptionContract` validation): records arrive parsed and well formed; a state file that cannot be read is not modelled.
- Decimal and float rounding (four-decimal quantizing, `:.2f` prices, the rounded flip point): exact reals, so ticks are taken as whole cents.
- Black-Scholes itself: the bisection runs over an arbitrary price function.
- EMA, RSI and MACD series, blend scoring, the contract selector, the flow trigger and `make_position`: short filters and formulas.
- Sell-side fills: the agent does not follow an exit order after placing it, so nothing is claimed about exits filling.
- The live position cap as an invariant: working orders are not counted by the position store, so only the replay's cap is one.
- The exit loop interleaved with order promotion on the same position id: an exited id can be put back by a later promotion of an adopted order. The order results keep the exit loop out of the store.
- The order in which one tick polls the orders: polls may come in any order.
- Reconciliation of a store that is not empty, and repeated listings of one instrument: a restart begins with an empty store and the broker lists an instrument once.
- Sells by hand or by the exit loop while startup runs: what the broker holds changes only by fills of the orders in the model.
- The clock inside one answer of a listing query: its orders are dealt with at one reading.
- Reconcilers.RecoveredAtAveragePrice: the quote of a recovered contract is zero, where the code also sets its mid to the entry premium (`src/trader/live/reconciler.py:124-136`); exits never read it.
- The midnight race inside one risk-engine call: each call reads the calendar day once, where the code reads it again when it persists.
- Sector counts and `record_fill`: the counts are a constant of the risk engine, as in the live loops.
- Two pipelines of one ticker at the same time: a poll runs one per ticker and waits for all of them, so a ticker records an attempt only after it was let through.
- `ProposalStore.get`, rejection notes, order results and run ids: stored and returned, never decided on.
- Sector, regime and setup labels on positions, and position ids inside exit signals: carried through only.
- GexDetectors.Detect: requires a positive spot, because the code divides by it as soon as there is a wall.
- ReplayTheorems.SteppingInPieces: assumes the available dates are distinct, which is how the data store lists them.
- ReplayResume.StandardExit: returns no exit for a zero entry premium, where the code would raise.
