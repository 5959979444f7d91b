# Order-execution safety engine: a verified model

A trading backend sends orders to a venue that may accept an order while every local write about it fails. This project models the engine that has to stay safe in that world and proves what it promises:

- **Ownership** (`Ownership`, `Uncertainty`, `AcceptedExposure`): after acceptance the exact pair of order and broker id keeps a durable owner under every pattern of lost, unanswered and cancelled store calls, with other actors writing in between.
- **Capital exposure** (`CheapestFirst`, `Exposure`, `ExposureTotal`, `RiskGate`): accepted BUY legs are merged into venue identities and known fills are charged cheapest first; the remaining notional is the true worst case, and what the risk gate admits stays under the total limit.
- **Reconciliation** (`Planner`, `ScopeEvents`, `ScopeLog`, `ManagedSubmit`): who owns which row of the venue's report, and the write-ahead log of exact venue requests per submission claim.
- **Monitoring** (`Orders`, `FillPolling`, `NotFound`, `CancelAttempts`, `Redrive`, `RepairCursor`, `QueryBudget`, `Fairness`): the order table, cumulative-to-delta fills, the not-found streak, bounded cancel and redrive attempts, page-bounded repair cursors, the token bucket and the round-robin cursor.
- **Position and staleness** (`PositionFold`, `Staleness`): the average-cost fold with resumable projections, and the in-memory staleness cache against the full log scan.

`Wrappers`, `Writes` and `Text` hold the shared values, the fates of a durable write, and string normalisation.

Objects that the program updates in place (the store, the repair log, the token bucket, the cursor, the staleness surface) are classes; what is computed from values is functions, with loops where the program loops. Faults, races and market data are nondeterministic choices or arguments, so every statement ranges over all of them. Prices and times are real numbers, quantities are integers. `dafny verify dfyconfig.toml` checks the whole project.

## Where the code does less than its documentation says

Each of these has a lemma with a concrete input, and beside it the exact condition under which the promise holds.

- Not-found resolution is documented as never touching CANCEL_PENDING. A cancel that lands while the query is in flight is still ended (`NotFound.RacedCancelIsEnded`), exactly then (`NotFound.CancelPendingFlippedExactlyByRace`). A present answer with a conflicting or blank id, whose marker is lost, or whose id a nameless row could not adopt because the write was lost or the status changed, does not reset the streak (`NotFound.ConflictingPresenceDoesNotReset`, `NotFound.BlankPresenceDoesNotReset`, `NotFound.LostMarkerDoesNotReset`, `NotFound.UnadoptedPresenceDoesNotReset`); every other one does (`NotFound.PresentResetsExactly`).
- The limit of three disposition cancels holds on every run if and only if callers bring at most one disposition; n dispositions reach n + 2 (`CancelAttempts.AtMostThriceExactly`, `CancelAttempts.BoundIsReached`).
- The redrive cap holds for sweeps that do not overlap; counts that are `lag` marks old reach cap + lag (`Redrive.OverlapReachesBound`).
- The staleness cache equals the log scan while it agrees with the log. An announcement that commits and loses its reply is announced again (`Staleness.LostReplyDuplicates`); the next pass is right if and only if it does not list that symbol (`Staleness.NextPassRightExactlyWhenUnlisted`).
- Two overlapping ticks of one repair consumer can store an older mark last. From then on the page after it is full and ends at a mark that is stored already, so the page loop of every tick runs for ever (`RepairCursor.OverlapSpinsForEver`), whatever facts arrive meanwhile (`RepairCursor.SpinsAmidArrivals`). It cannot happen while no stored mark exceeds the latest (`RepairCursor.RisingMarksNeverSpin`), which one consumer's sequential ticks guarantee.
- The planner's gap test counts executions that are stored already, so a row that lists only old executions passes it (`Planner.OldExecutionPassesTheGapTest`, `Planner.GapClosesExactly`). The mass reports of both adapters in the repository carry no executions (app/broker/alpaca_paper.py:1379, app/broker/mock.py:264), so only another adapter can send such a row.
- An overfilled open BUY row counts as negative and hides exposure from the gate (`RiskGate.OverfilledRowHidesExposure`). The rows of a priced book count all they may still consume if and only if none is overfilled (`RiskGate.BookIsSeenWholeExactly`); what is admitted beyond the limit is at most the shortfall of such rows (`RiskGate.AdmittedStaysWithinShortfall`).
- A malformed fact that names its venue order with a stray space counts that order twice (`RiskGate.StraySpaceCountsTwice`); it shares a leg exactly when its text has none (`RiskGate.FactSharesALegExactly`, `RiskGate.FactJoinsTheRowExactly`).
- Fair service over a changing list needs the last served order to stay listed and no new order to enter the stretch between it and the waiting one (`Fairness.ServedUnderHarmlessChange`); neither half can be dropped, each starving run keeps the other half (`Fairness.ChurnStarves`, `Fairness.ArrivalsStarve`), and an order starves exactly while it stands out of reach (`Fairness.StarvedExactlyWhenOutOfReach`).
- The delta rule needs a current recorded count (`FillPolling.OverlappingPollsDoubleCount`, `FillPolling.DeltaExactlyWhenCountIsCurrent`); a broker REJECTED after a partial fill has no edge to follow (`FillPolling.RejectedPartialIsStuck`, `FillPolling.TransitionRefusedExactly`).

## Model

| member | source | states |
|---|---|---|
| `Ownership.Store.Transition` | app/store/memory.py:4945-5014 | a normal return means the row holds the stripped id and no other order held it; recoveries and facts are untouched; a refusal changes nothing |
| `Ownership.Store.CreateRecovery` | app/store/memory.py:4147-4243 | a normal return means the pair has a recovery row with the order's own id, client id, symbol, side, quantity, price and session, open if new, unchanged if found, and no other order holds the id; rows, facts and other recoveries are untouched |
| `Ownership.RecoveryRefusedExactly` | app/store/memory.py:4170-4231 | a recovery is refused exactly when the row has another symbol or side, another order holds the id, or the existing row differs in any of those fields |
| `Ownership.Store.AppendFact` | app/store/memory.py:5419-5454 | a repeat under a dedupe key answers with the stored fact and leaves the store as it was |
| `Ownership.Store.RecordUncertainty` | app/reconciliation.py:1314-1368 | a normal return means a canonical fact for the exact pair is in the log, also when the key was taken |
| `Ownership.Store.DurablyTracked` | app/reconciliation.py:582-611 | a positive answer means the row owns the pair; a failed read is no proof |
| `Ownership.Store.HandleUnpersisted` | app/monitoring.py:3157-3277 | finished means the row or a recovery row for this very order owns the pair, the uncertainty error means a canonical fact exists, for every fault pattern; no error before recovery and fact were both tried; a row already live under the id is left alone |
| `Ownership.Store.Finalize` | app/monitoring.py:3128-3154 | the same for the whole finalizer including a cancelled first write; without any fault a claimed row adopts the id and nothing else changes, and an unclaimed pair always gets an owner |
| `Ownership.Store.RepairSeed` | app/monitoring.py:3280-3360 | a successful repair leaves the pair owned and releases the fact it started from; without any fault a fact in the engine's shape is always repaired unless its pair is contested |
| `Ownership.RunEvolves` | app/store/core.py:3593-3680 | over every run of store updates rows stay with their scope and a concrete id, recoveries stay but for their cleanup status, facts stay |
| `Ownership.OwnershipIsDurable` | app/store/core.py:3643-3660 | over every run of store updates an owned pair keeps its owner |
| `Ownership.OneOwnerForEver` | app/store/memory.py:440-476 | over every run of store updates no venue id is owned by two orders |
| `Ownership.ConflictExactly` | app/store/memory.py:440-476 | an id is refused to an order exactly when it is not empty and another order owns it or is named with it by a canonical fact |
| `Ownership.MoveExactly` | app/store/memory.py:4945-5014 | a transition is refused exactly for an unknown order, an id held elsewhere, a missing edge, no concrete id, a changed id or a bad count; otherwise that row alone takes the status, count and stripped id given |
| `Ownership.UpdatesExactly` | app/store/memory.py:3951-4146 | the other store updates: only a CREATED order is claimed, only an existing recovery changes its cleanup status, and nothing else moves |
| `Ownership.FactUntilOwner` | app/policy.py:98-187 | in every later state the fact counts exactly while its pair has no owner, and never again once released |
| `Ownership.AcceptedIsNeverInvisible` | app/monitoring.py:3182-3188 | an accepted order that was left owned or recorded is owned or counted as uncertainty in every later state |
| `AcceptedExposure.RecoveryCountsTheOrder` | app/monitoring.py:3251-3262 | a pair finished through the recovery ledger is one exposure record with exactly the order's own quantity and price |
| `AcceptedExposure.RecoveredBuyIsALeg` | app/policy.py:298-318 | so its order has a leg under that id at least as large and as dear |
| `AcceptedExposure.RecordedBuyIsALeg` | app/policy.py:319-339 | and while only a fact speaks for it, the fact is such a leg |
| `Uncertainty.UncertaintyOrderIds` | app/policy.py:139-187 | an order is listed, once, exactly when some fact in scope names it and is not released |
| `Uncertainty.FactHoldsExactlyUntilOwned` | app/policy.py:175-186 | the engine's own fact counts, for its order's symbol and side and no other, if and only if neither the row nor a recovery owns its exact pair |
| `Uncertainty.MalformedIsNeverReleased` | app/policy.py:98-136 | a fact that is not in canonical shape counts exactly in the scope it declares and the scope of its order's row, whatever the ledgers hold |
| `Uncertainty.FallbackIsCanonical` | app/policy.py:98-136 | the fact the engine writes is canonical exactly for a non-blank id without surrounding whitespace |
| `Uncertainty.CanonicalIsTheEngineShape` | app/policy.py:98-136 | a fact is canonical for a pair if and only if, apart from whitespace around the id, it is the one the engine writes for it |
| `CheapestFirst.CheapestFirstIsMaximal` | app/policy.py:386-393 | no allocation of the same fills over the legs leaves more notional |
| `CheapestFirst.CheapestFirstIsReached` | app/policy.py:386-393 | some allocation of exactly those fills leaves that notional |
| `CheapestFirst.SortingIsIrrelevant` | app/policy.py:390 | the order given to equal prices does not change the result |
| `CheapestFirst.MoreFillsLeaveLess` | app/policy.py:386-393 | more fills never raise the remaining notional, which is never negative |
| `CheapestFirst.MoreLegsLeaveMore` | app/policy.py:386-393 | one more leg at any price never lowers it |
| `Exposure.MergeIsJoin` | app/policy.py:274-291 | merging two scopes of one identity is commutative, associative, idempotent, with unbounded absorbing |
| `Exposure.CollectLegs` | app/policy.py:293-340 | the leg table holds exactly one leg per recorded identity, the join of all records of it |
| `Exposure.FoldIsDetermined` | app/policy.py:293-340 | the leg table is a function of the set of records alone |
| `ExposureTotal.OpenRecoveryIsCovered` | app/policy.py:298-318 | every open BUY recovery has a leg under its own id that is at least as large and as dear |
| `ExposureTotal.UncertainFactIsCovered` | app/policy.py:319-339 | so has every BUY fact that still counts as uncertainty |
| `ExposureTotal.LegHasARecord` | app/policy.py:239-339 | behind each leg there is an open BUY recovery or an unreleased BUY fact of that identity, and its quantity and price are ones such a record or the row declares |
| `ExposureTotal.OrdinaryExactly` | app/policy.py:343-351 | a row counts by itself exactly when it is an open BUY other than the excluded order |
| `ExposureTotal.BoughtByOrder` | app/policy.py:215-221 | bought shares per order, sells ignored |
| `ExposureTotal.BoughtAdds` | app/policy.py:215-221 | bought shares add up over any split of the fills; one fill counts its quantity exactly for a BUY of that order |
| `ExposureTotal.RowRemainingExactly` | app/policy.py:394-399 | a row deducts its unfilled shares at its limit price, nothing once filled or without a price |
| `ExposureTotal.ChargeCheapestFirst` | app/policy.py:386-393 | the loop's result is the cheapest-first worst case of the leg table |
| `ExposureTotal.WorstIsMaximal` | app/policy.py:384-393 | no allocation over the legs of an order, in whatever order they are listed, leaves more than that |
| `ExposureTotal.AddRow` | app/policy.py:353-377 | the open row joins the leg of its own id, or without an id the leg of the smallest nominal value |
| `ExposureTotal.WhichLegIsIrrelevant` | app/policy.py:363-377 | a priced id-less row changes no leg; an unpriced one makes the legs unbounded; the choice of leg never matters |
| `ExposureTotal.AdditionalOf` | app/policy.py:345-399 | what one order adds: infinite if a leg is unbounded, otherwise the worst case beyond the row's own remainder |
| `ExposureTotal.UnrepresentedBuyExposure` | app/policy.py:190-401 | the total over all orders with legs |
| `ExposureTotal.OrderAndRepetitionAreIrrelevant` | app/policy.py:190-401 | the total is the same for any order and repetition of recoveries and facts |
| `RiskGate.UnboundedLegRejectsEverything` | app/policy.py:857-868 | one unbounded record makes the exposure infinite, and the gate rejects every order under every configuration |
| `RiskGate.AdmittedExactly` | app/policy.py:855-880 | an order is admitted if and only if its symbol is allowed, price and exposure are finite and every configured cap is respected; otherwise the reason is the first that fails |
| `RiskGate.SoleMatchingLegAddsZero` | app/policy.py:353-362 | a sole leg with the row's own id and scope adds nothing |
| `RiskGate.RowNotionalAgreesExactly` | app/policy.py:808-824 | the row's notional is what the merge deducts exactly when the order is not overfilled |
| `RiskGate.OverfilledRowHidesExposure` | app/policy.py:808-824 | for any cost basis: beside an overfilled open BUY the reported exposure is below basis plus a working order of another symbol, and an order is admitted that exceeds the limit |
| `RiskGate.BookIsSeenWholeExactly` | app/policy.py:808-824 | over a whole priced book the rows count all they may still consume if and only if no open BUY row is overfilled, and otherwise fall short by exactly the shortfalls |
| `RiskGate.AdmittedStaysWithinShortfall` | app/policy.py:871-878 | for every book: cost basis, worst case of every order with legs, the other open BUY rows and the admitted order stay within the limit plus the shortfall of overfilled or disagreeing rows |
| `RiskGate.AdmittedStaysUnderTheLimit` | app/policy.py:871-878 | and under the limit itself where the fills agree with the rows |
| `RiskGate.FactSharesALegExactly` | app/policy.py:304-339 | a fact and a recovery that name one venue order share a leg if and only if the fact's text has no stray space |
| `RiskGate.FactJoinsTheRowExactly` | app/policy.py:331-365 | likewise a fact and the open row |
| `RiskGate.OnlyMalformedFactsStay` | app/policy.py:327-333 | beside an owner of its venue order only a malformed fact is still a leg |
| `RiskGate.StraySpaceCountsTwice` | app/policy.py:331-365 | one malformed fact with a leading space beside the row that owns its order counts that order twice |
| `Planner.CheckIdentities` | app/broker/alpaca_paper.py:1260-1362 | a report is refused exactly when a venue id or a present client id repeats, otherwise passed on whole |
| `Planner.OwnedRowIsTheRequest` | app/reconciliation.py:844-1010 | an order with a recorded request owns a row exactly when the row's ids name it and it reports that very request in every field |
| `Planner.OwnedRowFitsTheOrder` | app/reconciliation.py:844-1010 | without a recorded request an order owns a row exactly when the ids name it and every field the row reports is the order's own |
| `Planner.UnscopedProtectiveSellOwnsNothing` | app/reconciliation.py:896-897 | a protective market sell without a recorded request owns no row |
| `Planner.OwnedAtMostOnce` | app/reconciliation.py:949-1010 | no row is owned by two orders, across both identity routes |
| `Planner.OwnsAtMostOne` | app/reconciliation.py:1057-1075 | no order owns two rows of a report with unique ids |
| `Planner.OwnedRowIsFound` | app/reconciliation.py:1034-1075 | the lookup tables find an order's row whenever the report holds one |
| `Planner.ClaimedExactlyWhenOwned` | app/reconciliation.py:1128-1152 | the checks that keep a row off the external list succeed exactly when some listed order owns it |
| `Planner.RowsArePartitioned` | app/reconciliation.py:1128-1177 | every row is external or owned by exactly one listed order, never both |
| `Planner.PlanOrders` | app/reconciliation.py:1034-1126 | the loop takes one decision per open order, in list order |
| `Planner.PlanReconciliation` | app/reconciliation.py:1013-1177 | with unique ids the external list is exactly the rows without an owner, in report order |
| `Planner.PlanIsSafe` | app/reconciliation.py:1045-1126 | every open order is skipped, queried or settled by an owned row, exactly one of these; the first two get nothing recorded; every resolution is a cancel or reject with the gap covered |
| `Planner.OwnedOrderExactly` | app/reconciliation.py:1057-1126 | an open order with an owned row is queried if and only if the row's priced executions do not cover the gap; otherwise exactly those executions are inferred if there is a gap, and exactly a new cancel or reject is resolved |
| `Planner.UnownedOrderExactly` | app/reconciliation.py:1045-1077 | one without an owned row is skipped exactly while recent and queried otherwise |
| `Planner.PricedFillsAre` | app/reconciliation.py:1091-1093 | the executions considered are exactly those with a price and an id |
| `Planner.AbsentIsNeverEnded` | app/reconciliation.py:1072-1077 | an open order without an owned row gets no execution and no resolution |
| `Planner.GapClosesExactly` | app/reconciliation.py:1084-1115 | a settled order's listed executions cover the gap, and applying them closes it if and only if the surplus is at least the listed shares stored already |
| `Planner.FreshExecutionsCloseTheGap` | app/reconciliation.py:1084-1115 | it always closes when no listed execution is stored yet and none is listed twice |
| `Planner.OldExecutionPassesTheGapTest` | app/reconciliation.py:1091-1095 | the owner of a row that lists only an old execution is settled as canceled, and applying the plan records nothing |
| `ScopeEvents.RoundTrip` | app/reconciliation.py:157-241 | the written scope event decodes to exactly the scope sent, if and only if the request is sendable |
| `ScopeEvents.Reads` | app/reconciliation.py:157-241 | otherwise it decodes to the stripped request or is refused |
| `ScopeEvents.DecodedIsWritten` | app/reconciliation.py:157-241 | whatever decodes is sendable and, encoded again, has the event's own columns and payload up to whitespace, case and spelling of numbers |
| `ScopeEvents.StoreClaimIsAccepted` | app/store/core.py:3885-3896 | the store's n-th claim is accepted as the n-th claim of its order and as no other |
| `ScopeEvents.AcceptedClaimIs` | app/reconciliation.py:92-154 | an accepted claim is the store's own but for what its payload may repeat, or the one backfilled as the first |
| `ScopeLog.ReadClaims` | app/reconciliation.py:255-293 | the claim tables of every order, or a refusal that only a poisoned log gets |
| `ScopeLog.ReadScopes` | app/reconciliation.py:295-320 | one scope per order and occurrence, each agreeing with its claim, or a refusal that only a poisoned log gets |
| `ScopeLog.VenueOrderScopeMap` | app/reconciliation.py:244-326 | answers exactly on sound histories, with the scope under each order's latest claim |
| `ScopeLog.CurrentClaimOccurrence` | app/reconciliation.py:119-154 | the number of the latest claim; fails exactly on unsound claims |
| `ScopeLog.ReadersAgree` | app/reconciliation.py:119-154 | the map's scope is the one that names the claim reader's occurrence, and without such a scope there is none |
| `ScopeLog.AcceptedHistoryIsSound` | app/reconciliation.py:295-320 | on an accepted history every scope is readable, agrees with the claim it names and is the only one for it |
| `ScopeLog.IndexesSufficeForTheMap` | app/reconciliation.py:398-422 | per-order indexes read one after another give the interleaved log's map restricted to those orders |
| `ScopeLog.LaterClaimHides` | app/reconciliation.py:322-326 | a later claim without a scope hides the older request and disturbs no other order |
| `ScopeLog.WriteThenReplay` | app/reconciliation.py:510-544 | the write-ahead record keeps the log readable exactly when the request is readable, and becomes the scope in force |
| `ManagedSubmit.ScopeStore.Append` | app/store/memory.py:5419-5454 | keys stay unique; a repeat answers with the stored event |
| `ManagedSubmit.ScopeStore.GetOrRecord` | app/reconciliation.py:469-549 | whatever it answers is what the log holds for that claim, with the expected predecessor |
| `ManagedSubmit.ScopeStore.Record` | app/reconciliation.py:510-549 | a fresh sendable request is recorded and answered; a key held by another request is never answered as this one |
| `ManagedSubmit.ScopeStore.Submit` | app/monitoring.py:269-304 | every request sent is backed by the log, for stale snapshots, lost writes and changing market data; with nobody else at work it is the request in force, or today's rendering when nothing is recorded |
| `ManagedSubmit.SameClaimSameRequest` | app/monitoring.py:269-304 | two requests sent under one claim are the same in type, price, quantity and predecessor |
| `ManagedSubmit.RenderedExactly` | app/monitoring.py:214-300 | a fresh submit renders the order as it stands, or a protective market sell outside regular hours as a limit at the live price; extended hours exactly for a limit before or after the session |
| `ManagedSubmit.RenderingAgrees` | app/monitoring.py:214-300 | today's rendering of a well-formed order always passes the check of a request against its order |
| `ManagedSubmit.OwnerAgreesExactly` | app/reconciliation.py:368-396 | a request fits an order exactly with its id, symbol, side, quantity, type and price, or for a protective market sell a market request or a limit at a positive price |
| `ManagedSubmit.RenderRefusedExactly` | app/reconciliation.py:425-460 | a request is refused exactly for a priced or extended-hours market order, a limit order without a positive price, or open hours on a new submission |
| `ManagedSubmit.StoreClaimFits` | app/reconciliation.py:491-501 | the claim the store writes fits exactly the orders with its symbol, side and session |
| `Orders.PlanTransition` | app/store/core.py:3593-3680 | a committed transition follows the table, keeps a concrete venue id, never lowers the filled quantity, never marks SUBMITTED without an id |
| `Orders.RefusedExactly` | app/store/core.py:3593-3660 | a transition is refused exactly for a missing edge, a SUBMITTED without id, another id than the concrete one held, or a filled count that falls or leaves the range |
| `Orders.ReachedFrom` | app/transitions.py:95-156 | which statuses lead to each status |
| `Orders.NeverReentersUnsent` | app/transitions.py:95-156 | an order that left CREATED and SUBMITTING never returns there |
| `Orders.ChangesBoundedAfterClaim` | app/transitions.py:95-156 | past the claim at most four status changes remain |
| `Orders.ChangesBoundIsTight` | app/transitions.py:95-156 | four is reached |
| `Orders.ClaimReleaseUnbounded` | app/transitions.py:95-156 | claim and release can alternate any number of times |
| `FillPolling.ResolveFillPrice` | app/broker/alpaca_paper.py:555-590 | the first usable price of average, limit and fallback, none otherwise |
| `FillPolling.OrderLedger.PollOnce` | app/monitoring.py:3950-3993 | one poll records the delta under its level and moves the row by the table; its exact outcome is in the next two rows |
| `FillPolling.PollRecordsExactly` | app/broker/alpaca_paper.py:1473-1500 | one execution at the broker's level, for the missing shares, at the price brought, exactly when priced, accepted and above the recorded count |
| `FillPolling.PollOutcomeExactly` | app/monitoring.py:3950-4101 | where the row ends for every broker answer and recorded count, and that it carries the capped recorded count |
| `FillPolling.ConflictHoldsOpen` | app/monitoring.py:3950-3975 | another execution at a recorded level adds nothing and holds the order open |
| `FillPolling.RecordedIsHighestRecordable` | app/broker/alpaca_paper.py:1473-1500 | for every feed the recorded shares are the highest accepted priced count |
| `FillPolling.LevelsIncrease` | app/broker/alpaca_paper.py:1473-1500 | fill ids are distinct and increasing |
| `FillPolling.RisingFeedIsTracked` | app/broker/alpaca_paper.py:1473-1500 | on a rising feed recorded shares equal the last priced poll and never exceed the broker's count |
| `FillPolling.DeltaExactlyWhenCountIsCurrent` | app/broker/alpaca_paper.py:1473-1500 | an appending poll lands on the broker's count exactly when it asked with the true recorded count |
| `FillPolling.OverlappingPollsDoubleCount` | app/broker/alpaca_paper.py:1473-1500 | two overlapping polls count shares twice |
| `FillPolling.TerminalOnlyWhenCovered` | app/monitoring.py:4061-4101 | FILLED needs recorded shares, and an unrecorded gap allows no terminal status |
| `FillPolling.CancelPendingNeverReopens` | app/monitoring.py:4061-4101 | CANCEL_PENDING goes only to itself or a terminal status |
| `FillPolling.TransitionRefusedExactly` | app/monitoring.py:4074-4101 | the row follows the fills except for a broker REJECTED on a partly filled order |
| `FillPolling.RejectedPartialIsStuck` | app/monitoring.py:4074-4101 | that order never moves again |
| `NotFound.NotFoundStreak` | app/monitoring.py:4885-4901 | the trailing run of not-found records since the last cleared-present marker |
| `NotFound.Resolver.ResolveOne` | app/monitoring.py:4710-4882 | one query outcome, with lost writes and a racing status change, as one step |
| `NotFound.AbsentExactly` | app/monitoring.py:4850-4882 | an absence below the bound is deferred; at the bound it rejects an order seen SUBMITTED and cancels any other, where the row still allows it |
| `NotFound.PresentExactly` | app/monitoring.py:4763-4808 | what a present answer does to the id, the streak and the log |
| `NotFound.OtherwiseExactly` | app/monitoring.py:4744-4761 | what a failed query records, and that no other order is touched |
| `NotFound.FlipNeedsSustainedAbsence` | app/monitoring.py:4850-4882 | an order is ended only by at least `retries` confirmed absences with no cleared marker between |
| `NotFound.FailedQueryNeverCounts` | app/monitoring.py:4744-4761 | a failed query moves neither the streak nor the row |
| `NotFound.PresentResetsExactly` | app/monitoring.py:4763-4808 | a present answer resets exactly when usable, adopted and recorded |
| `NotFound.FlipNeedsConsecutiveAbsence` | app/monitoring.py:4850-4882 | when present answers reset, the absences are consecutive |
| `NotFound.ConflictingPresenceDoesNotReset` | app/monitoring.py:4763-4808 | absent, conflicting present, absent ends an order that needed two |
| `NotFound.BlankPresenceDoesNotReset` | app/monitoring.py:4763-4808 | a present answer with a blank id leaves the streak |
| `NotFound.LostMarkerDoesNotReset` | app/monitoring.py:4805-4808 | so does a usable one whose marker is lost |
| `NotFound.UnadoptedPresenceDoesNotReset` | app/monitoring.py:4763-4808 | and, for a row without an id, a usable one whose adoption is lost or raced |
| `NotFound.FlipTargets` | app/monitoring.py:4854-4880 | PARTIALLY_FILLED goes only to CANCELED and terminal rows are untouched |
| `NotFound.CancelPendingFlippedExactlyByRace` | app/monitoring.py:4854-4880 | CANCEL_PENDING is ended exactly when the cancel lands during the last needed absent query |
| `NotFound.RacedCancelIsEnded` | app/monitoring.py:4854-4880 | such a run: SUBMITTED, cancel during the query, rejected |
| `CancelAttempts.CancelLog.PersistAttempt` | app/monitoring.py:1269-1350 | an attempt is won only when its key was free, its draft was stored and the reply was seen |
| `CancelAttempts.DraftExactly` | app/monitoring.py:1284-1314 | the next number under the disposition of the earliest attempt seen, else of the earliest request, else the caller's; none after three |
| `CancelAttempts.CallsAreReservedAndBounded` | app/monitoring.py:1667-1782 | every venue cancel has its own durable attempt, none is used twice, and calls are bounded by two plus the dispositions |
| `CancelAttempts.CallsBoundedByDispositions` | app/monitoring.py:1667-1782 | callers that bring dispositions from a set cancel at most two plus its size times, none without any |
| `CancelAttempts.OneDispositionCancelsAtMostThrice` | app/monitoring.py:1667-1782 | one disposition cancels a child at most three times over every interleaving and restart |
| `CancelAttempts.BoundIsReached` | app/monitoring.py:1269-1350 | two plus n is reached for every n dispositions |
| `CancelAttempts.AtMostThriceExactly` | app/monitoring.py:1269-1350 | every run over a set of dispositions makes at most three calls if and only if the set has at most one |
| `CancelAttempts.TwoDispositionsCancelFourTimes` | app/monitoring.py:1269-1350 | any two dispositions reach four |
| `Redrive.RedriveLog.SweepOnce` | app/monitoring.py:2626-2722 | one sweep writes its mark before the call and defers otherwise |
| `Redrive.SweepExactly` | app/monitoring.py:2626-2722 | below the cap every sweep leaves one mark unless the write is lost, started when priceable and deferred otherwise; the call follows only an answered mark |
| `Redrive.CallsBounded` | app/monitoring.py:2626-2722 | lifetime calls never exceed the cap, plus the age of the count when sweeps overlap |
| `Redrive.OverlapReachesBound` | app/monitoring.py:3056-3093 | that bound is reached |
| `RepairCursor.RepairLog.Arrive` | app/store/memory.py:5419-5454 | facts and audit rows of any kind arrive between any two calls without breaking a cursor's promise |
| `RepairCursor.RepairLog.Tail` | app/monitoring.py:885-916 | a page beyond the cursor with a real fact in it, or nothing exactly when only checkpoints remain, whatever arrives while it reads |
| `RepairCursor.RepairLog.Advance` | app/monitoring.py:919-952 | a checkpoint over inspected ground is always new, and keeps every cursor's promise |
| `RepairCursor.RepairLog.ProcessPage` | app/monitoring.py:969-1073 | the high-water mark strictly advances, only over facts inspected without error |
| `RepairCursor.RepairLog.DrainExecution` | app/monitoring.py:969-1073 | with finitely many arrivals the page loop terminates and covers every earlier fact; with none it writes nothing to an idle log |
| `RepairCursor.RepairLog.DrainAudits` | app/monitoring.py:3374-3402 | with finitely many arrivals the audit pages terminate and cover every earlier row, the high-water mark unmoved |
| `RepairCursor.RepairLog.RepairSubmits` | app/monitoring.py:3363-3438 | both phases of the accepted-submit consumer cover every earlier audit row and fact, whatever arrives |
| `RepairCursor.RepairLog.Round` | app/monitoring.py:2253-2254 | a clean round covers every audit row, and for both consumers every fact, it began with, whatever arrives; without faults it is clean; without arrivals it leaves no repair work, the next clean one settles both cursors, and a settled log is not written to |
| `RepairCursor.AdvancesExactlyWhenNew` | app/monitoring.py:919-952 | a checkpoint write moves the cursor exactly when its content is new or already the latest |
| `RepairCursor.ScanFinds` | app/monitoring.py:885-916 | the page scan of a log that stands still finds the first page with a fact, or there is none |
| `RepairCursor.RisingMarksNeverSpin` | app/monitoring.py:885-1073 | while no stored mark exceeds the latest, every page moves the cursor |
| `RepairCursor.SpinsForEver` | app/monitoring.py:985-1073 | a full page whose mark is stored already is read for ever |
| `RepairCursor.SpinsAmidArrivals` | app/monitoring.py:985-1073 | also while other actors append facts: nothing but their facts is added, and the loop still spins |
| `RepairCursor.OverlapSpinsForEver` | app/monitoring.py:919-1073 | a run of overlapping ticks that ends there |
| `QueryBudget.ReconcileQueryBudget.TryConsume` | app/reconciliation.py:656-679 | one call refills by the forward advance, caps, and grants or refuses |
| `QueryBudget.TokensConserved` | app/reconciliation.py:656-679 | left, granted and spilled tokens equal the start plus the refill; tokens stay within the limit |
| `QueryBudget.ForwardIsHighWaterAdvance` | app/reconciliation.py:656-679 | the forward advance is the movement of the clock's high-water mark |
| `QueryBudget.ContiguousRunIsRateLimited` | app/reconciliation.py:656-679 | any contiguous run grants at most the limit plus its own refill |
| `QueryBudget.RefusedOnlyWhenShort` | app/reconciliation.py:656-679 | a call is refused only when it would overdraw |
| `QueryBudget.FullAfterAMinute` | app/reconciliation.py:656-679 | a minute after its last reading a bucket is full again |
| `Fairness.RotationIsPermutation` | app/reconciliation.py:707-728 | rotation only reorders |
| `Fairness.ReconcileFairnessCursor.ServeTick` | app/monitoring.py:2844-2858 | one tick serves the rotated list until the tokens end and remembers the last served |
| `Fairness.ServiceIsCyclic` | app/reconciliation.py:707-728 | across ticks the service is the cyclic order of the list |
| `Fairness.EveryWindowServesAllOnce` | app/reconciliation.py:707-728 | any n consecutive queries serve all n orders once |
| `Fairness.ServedWithinCeiling` | app/monitoring.py:2844-2858 | with k tokens a tick every order is queried within ceil(n/k) ticks |
| `Fairness.ServedExactlyWhenInReach` | app/reconciliation.py:707-728 | in one tick an order is served if and only if fewer orders than tokens stand before it |
| `Fairness.StarvedExactlyWhenOutOfReach` | app/reconciliation.py:707-728 | over any changing list an order is never served if and only if it is out of reach at every tick |
| `Fairness.ServedUnderHarmlessChange` | app/reconciliation.py:707-728 | if the last served order stays listed and nobody enters the stretch before the waiting one, it is served once the tokens exceed its rank |
| `Fairness.ServedWithinCeilingUnderChange` | app/monitoring.py:2844-2858 | so within ceil(n/k) ticks with k tokens a tick |
| `Fairness.ChurnStarves` | app/reconciliation.py:707-728 | with the order served last leaving at every change and nobody entering the stretch, an order starves for any number of ticks |
| `Fairness.ArrivalsStarve` | app/store/memory.py:5159-5166 | with nobody leaving but new orders entering the stretch, an order starves for any number of ticks |
| `PositionFold.FoldFills` | app/position.py:120-141 | the loop is the strict fold |
| `PositionFold.FoldSplits` | app/position.py:120-141 | splitting and resuming anywhere gives the same position |
| `PositionFold.FoldQuantityAndBasis` | app/position.py:74-117 | quantity is the signed sum; no cost basis and no average unless long |
| `PositionFold.BasisIsWhatWasPaid` | app/position.py:74-117 | over every history the basis plus the cost released by sells at the average of the moment is the starting basis plus what was paid for shares bought into the long book |
| `PositionFold.BuysCostWhatTheyCost` | app/position.py:83 | buys alone cost the sum of quantity times price |
| `PositionFold.StrictFoldNamesTheSell` | app/position.py:100-101 | the refusal names the first sell that exceeds what is held, and what was held |
| `PositionFold.StrictFoldFailsExactly` | app/position.py:74-117 | the strict fold fails exactly when some prefix sum is negative, otherwise it is the short-recording fold |
| `PositionFold.AverageWithinBuysSinceFlat` | app/position.py:74-117 | the average lies within the buys since the book was last flat or short |
| `PositionFold.SellKeepsAverage` | app/position.py:74-117 | a sell that leaves the book long keeps the average |
| `PositionFold.SnapshotResumeIsFullReplay` | app/events/replay.py:81-97 | a snapshot at any sequence, resumed over the whole log, is the full replay |
| `PositionFold.ProjectionIsPerSymbolFold` | app/events/projectors.py:737-784 | each symbol's projection is the fold of its own fills |
| `Staleness.Surface.Pass` | app/strategy_loop.py:242-296 | the pruned, seeded and updated cache and the log after one pass |
| `Staleness.Surface.LastKnownStaleState` | app/strategy_loop.py:299-327 | the last announced state of each symbol |
| `Staleness.PassIsReference` | app/strategy_loop.py:242-327 | from a cache right about the listed symbols one pass writes the reference log, and is then wrong about exactly the symbol whose reply was lost |
| `Staleness.ReferenceTracks` | app/strategy_loop.py:242-327 | a fault-free pass leaves every symbol recorded as last read and announces exactly its changes of state |
| `Staleness.CachedRunIsReferenceRun` | app/strategy_loop.py:242-327 | over every run the cached log is the scanned log, where a lost reply is followed by a restart or a pass without that symbol |
| `Staleness.NextPassRightExactlyWhenUnlisted` | app/strategy_loop.py:242-327 | after a lost reply the next fault-free pass is right if and only if it does not list that symbol |
| `Staleness.PassCorrectExactlyWhenCacheAgrees` | app/strategy_loop.py:242-327 | a fault-free pass is right if and only if its cache agrees with the log |
| `Staleness.RunAlternates` | app/strategy_loop.py:242-327 | each symbol's announcements strictly alternate, stale first |
| `Staleness.LostReplyDuplicates` | app/strategy_loop.py:242-296 | a lost reply repeats an announcement |

## Left out

- API, cockpit, startup, configuration and logging: routing and presentation.
- SDK calls, status classification and response parsing of the broker adapter: foreign behaviour; the delta rule and the unique-identity check are modelled.
- Envelope lineage, sell-side decisions and the store's claim gate: their results are inputs or nondeterministic refusals here.
- Envelope variant of the accepted-submit finalizer: the same protocol with extra payload.
- Position parity in the planner: a per-symbol comparison that one reading settles.
- Float rounding and non-finite floats other than infinite exposure: prices are real numbers.
- Text of dedupe keys: keys are records of their parts, so two different order ids that contain separators cannot collide here.
- Upper-casing beyond ASCII letters.
- ScopeLog.VenueOrderScopeMap: works on events beside their decoded reading; the decoding itself is ScopeEvents.Decode.
- Ownership.Store.Transition: an envelope authorization that lapsed is a refusal the caller sees like any lost write, not a tracked condition.
- NotFound.Resolver.ResolveOne: the direct poll and fill ingestion after a present answer are the fill-polling component's.
- Redrive.RedriveLog.SweepOnce: which stale orders are excluded because a recovery, a fallback fact or an envelope owns them is not modelled; the bound is per order that is re-driven.
- RepairCursor.RepairLog.Round: the other consumer's checkpoints are written between, not during, one consumer's pages; overlapping ticks of one consumer are RepairCursor.Raced.
- RiskGate.AdmittedStaysUnderTheLimit: needs fills that agree with the order rows; RiskGate.AdmittedStaysWithinShortfall states the bound for every book.
- Planner.PlanReconciliation: with repeated ids the external list is unspecified; the adapter refuses such reports.
