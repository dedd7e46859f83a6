# Verified model of the order, market-data and regime core

This project models the parts of the trading system where a mistake costs money
without anyone noticing, and proves what they keep.

- **Orders and their capital.** `OrderTypes` has the rows of the orders table, the
  placement context the audit log remembers, and the broker's book. `OrderLedger`
  says what each entry point of the order manager leaves behind as a function of
  what the broker answers; every answer is an argument, so a proof for all
  arguments is a proof for every broker. `OrderManagement` is the manager itself,
  a class that updates table and ledger row by row, proved to leave exactly those
  worlds. These operations run one after another. `OrderEffects` says in plain cases
  what each of them makes of every row and of the ledger, and what a retry inherits;
  `OrderConservation` ties the reserved capital to the commitments of the rows over every such serial run,
  `OrderRetry` bounds what an order and its retry can buy over them, and
  `OrderTraces` has the concrete serial runs in which either goes wrong.
- **The same manager, interleaved.** `OrderInterleaving` splits every operation at
  its awaits: any number of placements and cancels, one expiry, one sync body
  behind its lock, submission threads that outlive a timed-out caller, and a broker
  that moves at will. `OrderRuns` has what holds over all its runs, `OrderTruth`
  that what a row says of its order is so or was confirmed, `OrderRevival`
  exactly when an order can be retried a second time, and `OrderFamilies` what an
  order and all its retries can buy.
  `InterleavedLedger` carries the capital ledger through the same runs, with the
  ledger calls at their own awaits, and `LedgerTraces` has a run in which a cancel
  and a sync release the same remainder. `OrderRefinement` joins the two models: every
  serial run is a schedule of the interleaved tasks and their ledger calls.
- **Submission.** `BrokerSubmission` is the three-attempt tagged loop against an
  adversary that loses acknowledgements; `OrderTag` is the twenty-character tag.
- **Ticks and bars.** `BarGroups` is the obvious first/max/min/last grouping by time
  slot; `IntradayBar` the in-place streaming builder, its volume and the
  fifteen-minute resample; `TickStore` the key that three writers share, each
  turn at it whole; `TickRaces` the same key with every read and write apart.
- **Calendar.** `GregorianCalendar` and `ExpiryCalendar`: last-Tuesday expiries, the
  rolls and the capital periods.
- **Option chain.** `MaxPain`, `DeltaStrike`, and `ContractCache`, the index of
  listed contracts and the lookup that snaps to it.
- **Slower loops.** `Regime` (hysteresis and who may resume what), `CandidatePool`
  (the crossover watchlist) and `DailySync` (reconciliation with the broker's book).

## What came out

- With the operations run serially, the reserved capital equals the commitments of
  the rows at every point of a run **if and only if** no expiry writes EXPIRED over a
  row whose remainder was already released, while its strategy has a reservation left
  to lose. That happens when the re-sync after a successful cancel already sees
  CANCELLED (src/orders/order_manager.py:645, then 887-888 and 708-714).
- Under every interleaving, reservations and commitments agree at every point, calls
  on the ledger that are still due included, **if and only if** no step is one of
  these: a sync, a cancel, an expiry or a repeated OPEN write over a row whose
  remainder was given back; a fill that a sync learns after the remainder was given
  back; an expiry whose copy of the row is stale; a release that overtakes the
  reservation it needs; a ledger call that is never made. `cancel_order` takes no
  lock: a sync that sees CANCELLED while line 746 is awaited releases the remainder at
  887-888 and line 757 releases it again (`LedgerTraces.CancelAgainstSync`).
- A retry is safe against everything the broker may still do, serially and under
  every interleaving, **if and only if** the row holds the final filled quantity when
  the remainder is computed. Serially that condition and the one on conservation pull
  against each other: the re-sync that reads the final fill from a cancelled order is
  the one that makes the ledger release twice.
- An update that takes effect in the database but raises is written again by the
  loop at src/orders/order_manager.py:256-266. Every step keeps every row on the
  lifecycle graph **if and only if** no such repeated write finds its row already
  ended, and no recorded fill shrinks **if and only if** none finds a larger one. An
  order enters OPEN at most once **if and only if** no step reopens it.
- An order that has had its retry can still be retried again **if and only if** it rests
  with something unfilled, or its OPEN write may still be repeated and put it back that
  way, or the running expiry still holds it with something left
  (`OrderRevival.SecondRetryIff`; `RevivedOrderRetriesTwice` is such a run).
- After a read of the broker's list that finds no live order, the order marked FAILED
  never has one **if and only if** no submission of it was in flight at the read.
- Under every interleaving a COMPLETED row's order is complete at the broker and wholly
  recorded, and a REJECTED row's order is rejected there. CANCELLED and EXPIRED say
  less: that the broker confirmed a cancel, or for CANCELLED that a list showed one
  (`OrderTruth.EndsOnEvidence`).
- Submitting again is safe against every broker **if and only if** nothing of ours is
  live or still to be listed when the broker's list is read. A look-up that fails, or
  comes before the earlier order is listed, cannot tell.
- All bars of a day hold exactly the increments of the cumulative volume feed **if
  and only if** the first tick of the day carries a reading, or no older baseline
  stands below the first reading.
- With reads and writes of the tick key apart, the bar fields are the fold of the
  ticks written, at every point, **if and only if** no refresh and no poll writes back
  a copy from before a tick that mattered. Ticks do not matter when all of them fall
  in the forming slot and its range, end at its close and bring no new volume. The
  poll has no guard, and it drops the stamp that the refresh's guard needs.
- `get_entry_expiry(m)` gives `m` days at every instant **if and only if** `m <= 35`.
- A put has a positive out-of-the-money strike to clamp to **if and only if** the
  underlying is worth at least an interval and a half.

Where the sources' own comments disagree with the code, the code is followed. The
comment at src/orders/order_manager.py:815-823 says the lock prevents a double
release; it does between two syncs, but not between a sync and the expiry that
awaited it, nor between a sync and a cancel. The docstring at
src/market_data/option_chain.py:658-660 promises a strike at least one interval out of
the money; the clamp works from the rounded underlying, so half an interval is what it
guarantees (`DeltaStrike.WholeIntervalIff`).

Money is in `real` or, for the capital ledger, in quantity units; strikes of listed
contracts are whole paise; time is a day number and seconds or microseconds.

## Model

| member | source | states |
|---|---|---|
| OrderTypes.WithStatus | src/orders/order_manager.py:573 | the ids of exactly the rows in a status, in table order |
| OrderTypes.FindLive | src/orders/order_manager.py:434-439 | an order with the tag that is neither rejected nor cancelled, and none only when no such order exists |
| OrderLedger.Advance | src/orders/order_manager.py:432-435 | between two calls the broker's book moves only as brokers can: orders fill further, finished ones stay, quantities fit the rows |
| OrderManagement.RiskManager.AddDeployedCapital | src/risk/risk_manager.py:93-95 | one strategy's reservation grows by the amount, the others stay |
| OrderManagement.RiskManager.ReleaseDeployedCapital | src/risk/risk_manager.py:97-101 | one strategy's reservation shrinks by the amount but not below zero |
| OrderManagement.OrderManager.PlaceOrder | src/orders/order_manager.py:128-414 | the whole new state of a placement: refusal while one rests, risk rejection, acknowledged, timed out and reconciled, unknown, raised; and the id handed back |
| OrderManagement.OrderManager.HasResting | src/orders/order_manager.py:146-154 | whether an OPEN row for the symbol exists |
| OrderManagement.OrderManager.FollowUp | src/orders/order_manager.py:203-319 | after the acknowledgement: immediate fill read, OPEN write or not, reservation |
| OrderManagement.OrderManager.SyncOrders | src/orders/order_manager.py:827-890 | every OPEN row takes the broker's status and fill, and a row found cancelled or rejected gives its unfilled part back |
| OrderManagement.OrderManager.ReleaseIfWasDeployed | src/orders/order_manager.py:892-926 | releases the unfilled part of an audited single-leg strategy buy, and nothing else |
| OrderManagement.OrderManager.RetryPendingVerification | src/orders/order_manager.py:471-527 | each row of unknown outcome becomes OPEN with its reservation, FAILED, or stays, by what the broker's list says |
| OrderManagement.OrderManager.ExpireStaleOrders | src/orders/order_manager.py:529-732 | verification, sync and then each stale OPEN order in turn; the count returned is of the orders marked EXPIRED |
| OrderManagement.OrderManager.ExpireIfStale | src/orders/order_manager.py:577-728 | cancel, re-sync, EXPIRED, release of the remainder and one retry, exactly when the order is stale and the cancel is confirmed |
| OrderManagement.OrderManager.CancelOrder | src/orders/order_manager.py:736-758 | cancels and releases only what may be cancelled, and reports success only when the broker confirmed |
| OrderEffects.PlacedRow | src/orders/order_manager.py:146-178 | a placement is refused exactly when it is no exit and its symbol has a resting order; else it adds one row, with the symbol, side, quantity and context asked for, and touches no other |
| OrderEffects.PlacedFate | src/orders/order_manager.py:180-412 | what becomes of that row for each answer: after a timeout PENDING_VERIFICATION if and only if the list read failed, OPEN if and only if it succeeded and a live order carries the tag, FAILED if and only if it succeeded and none does |
| OrderEffects.PlacedReserves | src/orders/order_manager.py:302-319 | the ledger gains the whole quantity for the order's strategy exactly when a single-leg buy came to rest |
| OrderEffects.VerifiedFate | src/orders/order_manager.py:492-527 | the same three cases for a row of unknown outcome looked up again, and the reservation of one found |
| OrderEffects.VerifiedRows | src/orders/order_manager.py:492-527 | in a whole pass each row of unknown outcome goes by its own read |
| OrderEffects.UnknownUntilRead | src/orders/order_manager.py:366-527 | over every serial run a row in PENDING_VERIFICATION stays exactly as it is until its own read in an expiry gets through; then it is FAILED if and only if no live order was shown, and was opened if and only if one was |
| OrderEffects.SyncedIs | src/orders/order_manager.py:827-888 | after a sync that gets through every row that was OPEN with its order in the book holds that order's fill and is COMPLETED, CANCELLED, REJECTED or OPEN if and only if the order is complete, cancelled, rejected or open; all other rows are unchanged, and all of them when it does not get through |
| OrderEffects.CancelledIs | src/orders/order_manager.py:736-757 | exactly a resting order whose cancel is confirmed becomes CANCELLED and gives its unfilled part back |
| OrderEffects.ExpireSyncsFirst | src/orders/order_manager.py:566-573 | once the sync before the loop gets through, every row the loop takes up rests at the broker and holds its fill |
| OrderEffects.ExpireMarks | src/orders/order_manager.py:572-654 | the rows an expiry marks EXPIRED are exactly those resting after that sync, at least 300 seconds old, whose cancel is confirmed; rows that did not rest are untouched |
| OrderEffects.RetiredIs | src/orders/order_manager.py:650-728 | a retired order gets a retry for exactly its unfilled part if and only if it may be retried and nothing of its symbol rests |
| OrderEffects.HeirsOverRuns | src/orders/order_manager.py:716-727 | over every serial run, with no hypothesis, a retry has its original's symbol, side, strategy and exit flag, is no spread leg, is marked a retry, and asks for at least one and at most what was asked for |
| OrderConservation.SyncKeeps | src/orders/order_manager.py:827-888 | a sync keeps row and broker consistent, never forgets a fill, and keeps the ledger equal to the commitments |
| OrderConservation.PlaceKeeps | src/orders/order_manager.py:157-414 | a placement, whatever its outcome, moves ledger and commitments by the same amount |
| OrderConservation.VerifyOneKeeps | src/orders/order_manager.py:492-527 | settling an unknown outcome moves ledger and commitments by the same amount when the context is found |
| OrderConservation.CancelKeeps | src/orders/order_manager.py:736-757 | a cancel that nothing interleaves keeps the ledger equal to the commitments |
| OrderConservation.ReleaseOnExpiry | src/orders/order_manager.py:650-714 | writing EXPIRED and releasing keeps the ledger right if and only if the remainder was not released before |
| OrderConservation.RetireKeeps | src/orders/order_manager.py:650-728 | the same with the retry that follows |
| OrderConservation.ConservedIffCleanExpiry | src/orders/order_manager.py:529-732 | through one whole expiry the ledger stays right at every order if and only if no remainder is released twice |
| OrderConservation.RunKeeps | src/orders/order_manager.py:91-947 | over every serial run each row names a broker order of its own, with a fill the broker reached, or none |
| OrderConservation.ConservationOverRuns | src/orders/order_manager.py:302-757 | over every serial run and every broker, for every strategy, reserved equals committed at all times if and only if no expiry releases a remainder twice |
| OrderTraces.RemainderReleasedTwice | src/orders/order_manager.py:634-714 | a run from the empty system whose ledger forgets ten that another order still holds |
| OrderRetry.RemainderSafeIffFinalRead | src/orders/order_manager.py:657-727 | asking again for the remainder is safe against every future of the broker if and only if the row holds the final fill |
| OrderRetry.ResyncReadsFinal | src/orders/order_manager.py:634-648 | the re-sync after the cancel is that final read when it gets through to a broker that has finished |
| OrderRetry.FamiliesOverRuns | src/orders/order_manager.py:645-727 | over every serial run with final reads, filled original plus quantity of the retry is the original quantity |
| OrderRetry.NeverOverBuys | src/orders/order_manager.py:645-727 | so over those serial runs an original and any one broker order of its retry never fill more than was asked for |
| OrderRetry.FamilyNeverOverBuys | src/orders/order_manager.py:645-727 | and with one broker order per tag, all orders of the original and of the retry together do not either |
| OrderTraces.StaleReadOverBuys | src/orders/order_manager.py:645-727 | a run in which the re-sync fails and thirteen of ten are bought |
| OrderInterleaving.StepKeeps | src/orders/order_manager.py:91-947 | each step of each task between two awaits, and each broker move, keeps the invariant that ties tasks, snapshots and rows together, and moves rows along the graph unless it repeats an OPEN write |
| OrderInterleaving.SyncWriteKeeps | src/orders/order_manager.py:837-888 | a write from a stale sync snapshot still moves its row along the graph and never lowers a fill |
| OrderInterleaving.CancelWriteKeeps | src/orders/order_manager.py:746-748 | so does the write of a cancel that was long under way |
| OrderInterleaving.RewriteKeeps | src/orders/order_manager.py:256-266 | a repeated OPEN write puts its row back to OPEN with its old fill and leaves every other task's view sound |
| OrderInterleaving.ExpireRetryKeeps | src/orders/order_manager.py:657-727 | a retry is only ever made of an eligible order that the broker had accepted, and repeats it for at most its quantity |
| OrderRuns.OnlyGraphEdges | src/orders/order_manager.py:157-888 | each step of every run keeps every row on the lifecycle graph if and only if it reopens none, and every recorded fill if and only if it forgets none |
| OrderRuns.OpenedAtMostOnce | src/orders/order_manager.py:203-888 | over every run an order enters OPEN at most once if and only if no step reopens it |
| OrderRuns.EntersFrom | src/orders/order_manager.py:203-516 | it enters OPEN from PENDING or PENDING_VERIFICATION if and only if that is not a reopening |
| OrderRuns.ClosedForGood | src/orders/order_manager.py:577-888 | once it has left OPEN it never returns if and only if no step reopens it |
| OrderRuns.RowsAge | src/orders/order_manager.py:157-888 | between any two points of a run placement and broker id of a row are kept; it moves on through the lifecycle unless reopened in between, its fill never shrinks unless forgotten in between |
| OrderRuns.RetriesBounded | src/orders/order_manager.py:443-728 | over every interleaved run a retry has its original's symbol, side, strategy and exit flag for at most its quantity, is no spread leg, is marked, and has no retry itself; no spread or condor entry leg has one, whatever the audit log answers |
| OrderTruth.SyncedAsRead | src/orders/order_manager.py:837-888 | over every interleaved run a sync write gives its row the fill and the status its order had in a list read that got through, as four literal pairs, and changes no other row |
| OrderTruth.FinishedRowsAreTrue | src/orders/order_manager.py:849-867 | over every interleaved run a COMPLETED row's order is complete at the broker and the row holds its whole quantity; a REJECTED row's order is rejected there |
| OrderTruth.StatusWrittenBy | src/orders/order_manager.py:157-888 | each status is written only by the task, and in the position, that may write it |
| OrderTruth.StartsWhen | src/orders/order_manager.py:492-829 | over every interleaved run a cancel starts exactly for a resting order; a sync only while its lock is free, with exactly the resting orders; an expiry only while none runs, with exactly the orders of unknown outcome and then exactly the resting ones |
| OrderTruth.EndsOnEvidence | src/orders/order_manager.py:593-888 | over every interleaved run EXPIRED follows a confirmed cancel, CANCELLED that or a read that showed it, COMPLETED and REJECTED a read that showed it |
| OrderTruth.RefusedNeverSent | src/orders/order_manager.py:180-191 | over every interleaved run nothing of an order the risk check refused is at the broker or on its way |
| OrderRevival.SecondRetryIff | src/orders/order_manager.py:577-728 | over every interleaved run, an order that has had its retry gets another in some continuation if and only if it rests unfilled, may be put back so by a repeated OPEN write, or is still held by the running expiry with something left |
| OrderRevival.ExposedRetries | src/orders/order_manager.py:577-728 | an order in one of those positions, if eligible, is retried by some continuation |
| OrderRevival.NeverAgain | src/orders/order_manager.py:577-728 | one in none of them is retried by no continuation |
| OrderRuns.SecondRetryNeedsRevival | src/orders/order_manager.py:650-728 | along the run itself, a second retry needs a step that put the order back to OPEN although its retry was decided |
| OrderRevival.RevivedOrderRetriesTwice | src/orders/order_manager.py:256-266 | a run in which that happens |
| InterleavedLedger.BalancedOverRuns | src/orders/order_manager.py:302-947 | over every interleaved run, every strategy: reserved plus due equals committed at every point if and only if no move spoils it by a second release, a late fill, a stale remainder, an overtaking release or a lost call; with no call due that is the ledger itself (`SettledBooks`) |
| InterleavedLedger.ActEven | src/orders/order_manager.py:383-888 | a step moves commitments by exactly what it leaves due if and only if its write spoils no row |
| InterleavedLedger.OnlyOvertakingFallsShort | src/risk/risk_manager.py:97-101 | while the books balance, a release is cut at zero only if it overtakes a reservation still due |
| LedgerTraces.CancelAgainstSync | src/orders/order_manager.py:746-757 | a run in which a cancel and a sync release the same ten and the ledger forgets ten that rest in another order |
| OrderRefinement.SerialRunsAreInterleavedRuns | src/orders/order_manager.py:91-947 | every serial run, with the broker standing still during each call, is a schedule of the interleaved tasks and ledger calls that ends with the same rows, book and ledger, no task under way and no call due |
| OrderRefinement.PlaceRuns | src/orders/order_manager.py:128-414 | so is each placement, whatever its outcome |
| OrderRefinement.SyncRuns | src/orders/order_manager.py:827-888 | each sync, its releases included |
| OrderRefinement.ExpireRuns | src/orders/order_manager.py:529-732 | each expiry, with its verifications, syncs, releases and retries |
| OrderRefinement.CancelRuns | src/orders/order_manager.py:736-757 | and each cancel |
| OrderRuns.DecidedByVerdict | src/orders/order_manager.py:374-527 | no step settles a fate except by a verdict some task holds, or the broker's refusal |
| OrderRuns.FailedOnlyAfterRead | src/orders/order_manager.py:337-527 | an order that is FAILED without a refusal was looked for in a list that was read and held no live order of it |
| OrderRuns.VerifiedOnlyByRead | src/orders/order_manager.py:471-527 | PENDING_VERIFICATION is left only to OPEN with the order found or to FAILED with none, by a successful read |
| OrderRuns.VerifiedFailureIsRealIff | src/orders/order_manager.py:404-409 | after a successful read that finds no live order, the order marked FAILED has one in no continuation if and only if nothing of it was in flight at the read |
| OrderRuns.VerifiedFailureIsReal | src/orders/order_manager.py:404-409 | with nothing in flight at that read, no live broker order of it exists then or ever after |
| OrderFamilies.RemainderSafeIff | src/orders/order_manager.py:645-727 | under every interleaving, asking again for what the row shows unfilled is safe in every continuation if and only if the row holds the final fill |
| OrderFamilies.FamiliesOverRuns | src/orders/order_manager.py:645-727 | over every interleaved run whose expiries read the final fill, every retry, however many there are, asks for what the final fill left |
| OrderFamilies.FamilyNeverOverBuys | src/orders/order_manager.py:645-727 | and with one broker order per tag, an order not put back to OPEN after its retry and all its retries together fill no more than was asked for |
| OrderRevival.RaisedWriteReopens | src/orders/order_manager.py:256-266 | a run in which a write that raised after taking effect returns a COMPLETED row to OPEN |
| BrokerSubmission.ZerodhaBroker.PlaceOrder | src/brokers/zerodha.py:221-254 | the loop leaves book and outcome as the attempt-by-attempt function says |
| BrokerSubmission.ZerodhaBroker.FindByTag | src/brokers/zerodha.py:147-168 | the first live order with the tag |
| BrokerSubmission.FindOrderByTag | src/brokers/zerodha.py:147-168 | the first order with the tag that is neither REJECTED nor CANCELLED, and none only when there is none |
| BrokerSubmission.DecidingAttempt | src/brokers/zerodha.py:221-254 | the first attempt that is not a passing failure decides: an order of ours shown by a repeat's look-up is returned and nothing more submitted, an acknowledged submission returns its new order, a refusal is raised; a passing failure is raised only after the last attempt |
| BrokerSubmission.AtMostOnce | src/brokers/zerodha.py:221-254 | with every look-up getting through in time, at most one live order carries the tag after every attempt, whichever acknowledgements are lost |
| BrokerSubmission.SafeToSubmitIff | src/brokers/zerodha.py:230-243 | a submission leaves one order at most against every broker if and only if nothing of ours is live or pending when the list is read |
| BrokerSubmission.ResubmissionSafeIff | src/brokers/zerodha.py:221-254 | over whole scripts, every submission is safe against every broker if and only if nothing stands at any look-up that lets one through, and then one order at most ever stands |
| BrokerSubmission.AtMostOnceIff | src/brokers/zerodha.py:221-254 | against one given broker, at most one live or pending order after every attempt if and only if no submission is accepted while an earlier one stands |
| BrokerSubmission.DoublesAreBlind | src/brokers/zerodha.py:147-168 | that takes a look-up that failed, or read the list before the earlier order was in it |
| BrokerSubmission.LiveOrdersBounded | src/brokers/zerodha.py:166-254 | in general at most one more for every submission accepted while an earlier one stands |
| BrokerSubmission.ReturnedIdIsOurs | src/brokers/zerodha.py:221-254 | a returned id names an order with the tag |
| BrokerSubmission.MissedLookupDuplicates | src/brokers/zerodha.py:166-168 | one lost acknowledgement and one blind look-up leave two live orders |
| OrderTag.TagUncutIff | src/core/utils.py:491-501 | the tag is the whole id if and only if the id is below ten to the eighteenth |
| OrderTag.TagsDistinct | src/core/utils.py:491-501 | below that, tags tell orders apart |
| OrderTag.TagsCollideBeyond | src/core/utils.py:491-501 | from there on, ids that differ in the last digit share a tag |
| OrderTag.ValueOfDecimal | src/core/utils.py:491-501 | the decimal text reads back as the id |
| IntradayBar.TickEntry.UpdateIntradayBar | src/core/utils.py:309-418 | one tick's whole effect on the dictionary, missing keys and day change included |
| IntradayBar.MissingKeys | src/core/utils.py:374-418 | whatever keys are missing: a missing price counts as the tick's, a missing volume as none, and a rollover keeps the latest hundred bars |
| IntradayBar.BuildsBars | src/core/utils.py:355-418 | after any session's ticks, whatever was there before, the dictionary holds their grouping by slot, opening price and extremes |
| IntradayBar.StreamIsGrouping | src/core/utils.py:369-429 | finished and forming bars are that grouping, keys ascend, at most 75 so the cap drops none, day range is bar range |
| IntradayBar.VolumeConserved | src/core/utils.py:362-417 | bar volumes add up to the feed's positive increments if and only if no old baseline is carried in |
| IntradayBar.VolumeOfPrints | src/core/utils.py:362-367 | the per-tick increments add up to the feed's rises plus what the baseline carried |
| IntradayBar.RisesTelescope | src/core/utils.py:362-367 | for a monotone feed the rises are last minus first |
| IntradayBar.ResampleIsDirect | src/market_data/ltp_poller.py:1163-1175 | resampling the finished bars by fifteen minutes is grouping the ticks by fifteen minutes |
| IntradayBar.WideSlots | src/market_data/ltp_poller.py:1163-1175 | a fifteen-minute group is the fifteen minutes of the wall clock |
| IntradayBar.SessionSlots | src/core/utils.py:421-429 | the session is exactly the 75 five-minute slots from 09:15 to 15:30 |
| BarGroups.RegroupedIsGrouped | src/market_data/ltp_poller.py:1163-1175 | grouping the groups is grouping, for any width |
| BarGroups.GroupedAscends | src/core/utils.py:398-409 | one candle for every slot with a tick, none without, keys strictly ascending |
| BarGroups.GroupedKeeps | src/core/utils.py:369-418 | grouping keeps volume, extremes, first open and last close |
| TickStore.Store.OnTicks | src/market_data/zerodha_ticker.py:336-386 | in session a symbol with a positive quote in the batch ends with the last such price as close and the time as stamp, its bar fields changed by its own ticks in order; every other symbol, and everything out of session, is unchanged |
| TickStore.Store.RefreshLtp | src/market_data/zerodha_ltp_poller.py:132-220 | a refresh sets exactly the close of symbols with a positive quote and no tick in the last fifteen seconds, creates bare entries, and counts its writes |
| TickStore.Store.PollSymbol | src/market_data/ltp_poller.py:351-402 | the overwrite carries today's bar fields and their nonzero close, else takes the history's; the stamp goes |
| TickStore.CloseIs | src/market_data/ltp_poller.py:366-401 | over every run the close is the price of the last step that sets it: an accepted tick, a refresh no tick guards against, or a poll that carries no nonzero close of today |
| TickStore.CloseKept | src/market_data/ltp_poller.py:366-401 | and without such a step it stays |
| TickStore.StampIs | src/market_data/zerodha_ltp_poller.py:206-220 | the stamp is the last accepted tick's time unless a poll came after it |
| TickStore.BarsAreTheTicks | src/market_data/ltp_poller.py:366-401 | with whole read-modify-writes the bar fields are the fold of today's WebSocket ticks, however the writers interleave (refresh and poll stutter: `StutterOrBlank`) |
| TickStore.StoredBarsAreGrouped | src/market_data/zerodha_ticker.py:362-384 | so what readers find is today's ticks grouped by slot |
| TickRaces.TicksKeptIff | src/market_data/zerodha_ltp_poller.py:189-220 | with every read and write apart, the bar fields are the fold of the ticks written at every point if and only if no refresh and no poll writes back a copy from before a tick that mattered |
| TickRaces.FoldStandsIff | src/core/utils.py:362-418 | ticks leave the bar fields as they are if and only if they fall in the forming slot and its range, end at its close and bring no new volume |
| TickRaces.NextHolds | src/market_data/ltp_poller.py:366-401 | each read, write, refresh and poll keeps the fold if and only if it wipes no such tick |
| TickRaces.AtOnceIsAStep | src/market_data/zerodha_ltp_poller.py:189-220 | a writer nothing comes between does exactly one whole step of the store, close and stamp included |
| TickRaces.PollLosesTick | src/market_data/ltp_poller.py:366-401 | a run in which an unguarded poll loses the day's high |
| TickRaces.RefreshLosesTickAfterPoll | src/market_data/zerodha_ltp_poller.py:206-220 | a run in which a refresh loses the day's high because a poll dropped the stamp (`TickStore.PollDefeatsGuard`), and the same without the poll in which its guard keeps it |
| GregorianCalendar.OrdinalOrders | src/core/utils.py:140-154 | day numbers order dates as year, month and day do |
| GregorianCalendar.MonthSpan | src/core/utils.py:151 | consecutive months abut, through leap years and year ends |
| GregorianCalendar.MonthLengths | src/core/utils.py:151 | the days before each month of every year in closed form, leap years included, which fixes all twelve lengths |
| GregorianCalendar.Anchored | src/core/utils.py:140-154 | 1 January 1970 is day 719163 and a Thursday |
| ExpiryCalendar.LastExpiryWeekday | src/core/utils.py:140-154 | the loop ends on the last Tuesday of the month |
| ExpiryCalendar.LastExpiryIsLast | src/core/utils.py:140-154 | that day is a Tuesday and no later day of the month is |
| ExpiryCalendar.ExpiryGap | src/core/utils.py:140-154 | consecutive expiries are 28 or 35 days apart |
| ExpiryCalendar.NearMonthIsEarliest | src/core/utils.py:157-171 | the near-month expiry is the earliest with at least 7 days left, and has at most 41, which is reached (`FortyOneReached`) |
| ExpiryCalendar.EntryIsEarliest | src/core/utils.py:174-193 | up to 35 days, an entry gets the earliest expiry that leaves it the days it asks for |
| ExpiryCalendar.EntryPromiseIff | src/core/utils.py:174-193 | it gets them at every instant if and only if it asks for at most 35 |
| ExpiryCalendar.PeriodsPartition | src/core/utils.py:196-224 | capital periods run from a Wednesday to the last Tuesday of a month, contain their dates, are shared exactly by the dates inside, abut, and last 28 or 35 days |
| MaxPain.CalculateMaxPain | src/market_data/nse_oi.py:243-279 | zero for an empty chain, otherwise the lowest of the listed strikes with least payout |
| MaxPain.LeastPainOverAllPrices | src/market_data/nse_oi.py:243-279 | that strike minimises the payout over every real price, and no lower price ties unless it is the lowest strike |
| MaxPain.OneSided | src/market_data/nse_oi.py:259-276 | with calls only it is the lowest strike, with puts only a price where none of them pays |
| MaxPain.PainAffine | src/market_data/nse_oi.py:269-275 | between neighbouring strikes the payout is a straight line |
| MaxPain.PainSlope | src/market_data/nse_oi.py:269-275 | its slope there is the calls' open interest at or below minus the puts' at or above |
| DeltaStrike.FindDeltaStrike | src/market_data/option_chain.py:668-706 | unclamped, the first closest of the positive candidates; clamped, for a monotone delta, the closest of those out of the money; positive exactly when one of those is |
| DeltaStrike.ClosestIs | src/market_data/option_chain.py:668-687 | closest means by the size of the delta to the size of the target, whatever its sign |
| DeltaStrike.ClampIsOptimal | src/market_data/option_chain.py:689-704 | clamping the best candidate gives the best out-of-the-money candidate |
| DeltaStrike.HalfAnIntervalOut | src/market_data/option_chain.py:668-704 | the result is a multiple of the interval, at least half an interval from the underlying on the right side |
| DeltaStrike.RoomOutOfTheMoney | src/market_data/option_chain.py:694-704 | a positive one exists for every call, and for a put if and only if the underlying is at least an interval and a half |
| DeltaStrike.WholeIntervalIff | src/market_data/option_chain.py:658-704 | the clamp is a whole interval away if and only if the underlying was rounded towards the strike (`LessThanAnInterval` has it 51 away on a grid of 100) |
| DeltaStrike.RoundHalfEven | src/market_data/option_chain.py:669 | nearest integer, ties to even |
| ContractCache.IndexContracts | scripts/zerodha_auto_auth.py:333-346 | the nested index has a cell for exactly the listed stock options, with the symbol of the last line for each |
| ContractCache.FetchAndCacheRealContracts | scripts/zerodha_auto_auth.py:333-359 | every symbol's three nearest expiries with exactly their listed contracts, and the number of symbols |
| ContractCache.GetRealContract | src/market_data/option_chain.py:299-379 | an answer if and only if the nearest expiry within five days has the kind at the nearest listed strike, and then that contract |
| ContractCache.KeptIffNearest | scripts/zerodha_auto_auth.py:349-355 | an expiry is kept if and only if it is listed and fewer than three listed ones precede it |
| ContractCache.ListedIsFound | src/market_data/option_chain.py:304-357 | every uniquely listed option in its symbol's three nearest expiries is returned exactly |
| ContractCache.FoundIsListed | src/market_data/option_chain.py:304-379 | any answer is a listed contract of that symbol and kind, at a nearest listed strike, of the nearest kept expiry within five days |
| Regime.MarketRegimeDetector.Detect | src/market_data/regime_detector.py:372-408 | the regime returned is the one cached, from the indicators and the regime cached before if it can be read |
| Regime.MarketRegimeDetector.EnforceRegimeSwitching | src/market_data/regime_detector.py:410-463 | pauses and resumes exactly the instances the rule says, and nothing without a readable regime (`EnforcementLeaves` reads the rule) |
| Regime.EnforcementIs | src/market_data/regime_detector.py:410-463 | active afterwards are exactly the strategies the regime lets enter, listed by name, that nobody else holds paused |
| Regime.PausedComesBack | src/market_data/regime_detector.py:441-459 | what an enforcement paused is active again after the next one exactly when that regime lets it enter |
| Regime.TrendingIff | src/market_data/regime_detector.py:680-690 | trending after a run if and only if some entry, or a trending start, was sustained by every reading since |
| Regime.RegimeIff | src/market_data/regime_detector.py:680-690 | after every run: unknown without real data, volatile above a VIX of 20, trending while a trend is sustained, else low volatility or range-bound by a VIX of 12 |
| Regime.EntriesCrossTheBand | src/market_data/regime_detector.py:680-690 | between two entries something fell out of the band and the upper line was reached again |
| Regime.OthersPausesStand | src/market_data/regime_detector.py:441-459 | over every run a pause by another source stands until someone resumes, reloads or unloads the strategy |
| Regime.OneStrategyAtATime | src/strategies/base.py:98-129 | loads, pauses, resumes and unloads act on their own strategy only, and how |
| Regime.MomentumNeedsTrend | src/market_data/regime_detector.py:130-166 | after any run, an enforcement leaves the momentum strategy active only while a sustained trend holds |
| Regime.Strategy.Pause | src/strategies/base.py:98-116 | a pause records its source |
| Regime.Strategy.Resume | src/strategies/base.py:119-129 | a resume clears it |
| CandidatePool.LTPPoller.Score | src/market_data/ltp_poller.py:323-441 | exactly the active symbols that were read compete, and the watchlist ages by one poll or is refreshed |
| CandidatePool.LTPPoller.PublishPool | src/market_data/ltp_poller.py:257-283 | the best by score in order, then the watched ones that scored, none twice and none other |
| CandidatePool.LTPPoller.Poll | src/market_data/ltp_poller.py:323-558 | the pool begins with the five best competitors of this poll by score, best first, or all when fewer; the rest are watched competitors, and every watched one is there |
| CandidatePool.WatchedIffRecent | src/market_data/ltp_poller.py:323-441 | over every run a symbol is watched if and only if it neared a cross in one of the last four polls |
| DailySync.OrderRepo.SyncOrdersFromZerodha | src/live_trading/zerodha_sync.py:58-149 | the table after the run, one order's failure leaving the others reconciled, and what each counter counts |
| DailySync.ReconciledIs | src/live_trading/zerodha_sync.py:79-144 | one order: its row keeps a fill within a paisa and takes the broker's otherwise; without a row the first stuck twin is attached, else one row added; nothing else changes |
| DailySync.RunSettles | src/live_trading/zerodha_sync.py:58-144 | after a failure-free run every order of the book has a row with its status, pair by pair, and its price |
| DailySync.SecondRunIsIdle | src/live_trading/zerodha_sync.py:58-144 | a second failure-free run over the same book changes nothing |
| DailySync.OthersUntouched | src/live_trading/zerodha_sync.py:79-139 | a row changes only as the match or stuck twin of a reported order, and never in what was ordered |

## Left out

- OrderConservation.ConservationOverRuns: is stated in quantity units. In rupees the code itself is not exact: lines 698-714 release at the adjusted retry price what was reserved at the original or fill price.
- OrderConservation.ConservationOverRuns: the engine's own reservations and releases when positions open and close are not part of the ledger, and neither are the daily reset and the risk manager's other rules; `validate_trade` is one yes-or-no answer.
- OrderConservation.ConservationOverRuns: covers operations run one after another; `InterleavedLedger` has the interleaved runs.
- OrderManagement.OrderManager.PlaceOrder: prices, slippage, order types, products, notifications and the list of open positions (334-335) carry no state the properties depend on; the three database attempts of the OPEN write are one attempt that sticks or not (`OrderInterleaving` has them apart).
- OrderManagement.OrderManager.FollowUp: the fill price that becomes the basis of the reservation is not modelled, the reservation is the quantity; the three attempts of the write are one.
- OrderManagement.OrderManager.SyncOrders: fill price and slippage are not modelled, and the broker always reports a filled quantity.
- OrderManagement.OrderManager.ExpireIfStale: the adjusted price of the retry, and its use as the basis of the release, are not modelled.
- OrderManagement.OrderManager.ExpireStaleOrders: every row has a creation time and a price; the audit look-up finds a row's entry always or never (its scan limit makes this one-way in time), and the interleaved machine lets each retry look-up succeed or fail on its own.
- OrderConservation.RunKeeps: other database failures inside an operation (a row update or audit write raising halfway) end the operation early in the code and are not modelled here; the interleaved machine has them as tasks that stop at any await.
- OrderRefinement.SerialRunsAreInterleavedRuns: the broker moves between calls and not during one, and brings no order of ours that was not submitted; creation times are left out, and a call that dies halfway is only in the interleaved model.
- OrderInterleaving.StepKeeps: where a caller awaits a sync, the machine lets the sync run any number of times or not at all, so it has more runs than the program; staleness by the clock is left to choice, in the continuations of `OrderRevival` too.
- OrderTypes.FindLive: the raw spellings of broker statuses are one constructor each; a look-up of the tag stands for equality of order ids below ten to the eighteenth, which `OrderTag` justifies.
- OrderRuns.FailedOnlyAfterRead: the generic exception branch (410-414) marks FAILED without looking and is excluded by name.
- OrderFamilies.FamilyNeverOverBuys: takes one broker order per tag as given; `BrokerSubmission` says when submission keeps it.
- BrokerSubmission.AtMostOnce: orders by other parties may come and go in the book but do not use the tag; an order accepted but listed late is in the list by the next submission.
- IntradayBar.TickEntry.UpdateIntradayBar: the clock is read once per tick; the code reads it twice, and once more in the market-hours guard. Prices are `real`.
- InterleavedLedger.BalancedOverRuns: ledger calls of different tasks may be made in any order, which includes orders the program does not have; amounts are quantities.
- TickRaces.TicksKeptIff: one trading day, one WebSocket thread; a writer that fails before its write simply never writes.
- TickStore.BarsAreTheTicks: covers one trading day at a time from any starting entry; indicator fields of the entry, the NIFTY index key, key expiry and JSON round trips are left out.
- IntradayBar.ResampleIsDirect: the row for the forming bar that the resample appends is passed through unchanged by the code and is not part of the statement; the EMA values computed from the series are left out.
- ExpiryCalendar.PeriodsPartition: years are unbounded integers, so the first and last year Python can represent are not special; "now" is one instant where `get_entry_expiry` reads the clock twice.
- DeltaStrike.FindDeltaStrike: the Black-Scholes delta is any function of the strike, prices are `real`, and the option type is a call or a put.
- ContractCache.GetRealContract: expiries are day numbers and strikes integers, so the text keys and their parsing do not appear; the cache is the one just published.
- Regime.TrendingIff: the indicators themselves are inputs, and a write of the regime that fails is a detection that did not happen.
- CandidatePool.LTPPoller.PublishPool: ties between equal scores may fall either way; the other pools, which use the same method without a watchlist, the status keys and the market-wide statistics are left out.
- DailySync.OrderRepo.SyncOrdersFromZerodha: takes today's orders; the filter by date and the capital snapshot are left out.
- Login, dashboards, notifications, HTTP retries of cancel and modify, order modification, holiday calendars and strategy logic.
- Indicator arithmetic (EMA, ATR, ADX, RVOL, VWAP), implied volatility, scores and backtesting.
