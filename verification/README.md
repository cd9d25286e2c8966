# ABEX: a verified model

ABEX is an order gateway. It takes orders from clients, checks them, journals every intent, sends
them to two venues, merges the venues' execution reports back into one canonical order each, and
survives crashes by replaying its journal. This project models its core in Dafny and proves what the
code relies on: about the gateway protocol over all interleavings, the order state machine over all
report sequences, the lock-free queues and sequence locks over all step interleavings, the rate
limiter over all windows, and the numeric and text formats over all values.

`dafny verify dfyconfig.toml` checks everything.

## How to read it

Concurrent components are transition systems: the state is a datatype, each atomic operation (a
section under the gateway's mutex, one atomic access, one field write, one system call) is one step,
and a step that does not apply leaves the state alone. `After(...)` is the state after any sequence
of steps, so a lemma about `After` speaks of every run and every number of threads. Components that
one thread runs are methods over fields, arrays and buffers, proved against specification functions.

| file | part of the system |
|---|---|
| `Orders`, `OrderStateMachine` | orders, reports, and the merge of one report, as functions and as the in-place routine |
| `Lifecycle`, `MergeConfluence`, `CancelReplace` | whole runs of reports: bounds, permutations, replacement chains |
| `Positions`, `Risk` | exposure sums and the two forms of every risk check |
| `Fingerprints`, `Outcomes` | what idempotent replay compares and returns |
| `Recovery` | rebuilding snapshots from the journal |
| `Gateway`, `GatewayHistory`, `GatewaySafety`, `GatewayMemory`, `GatewayTheorems` | the protocol, its invariant, what restarts remember, and what callers may rely on |
| `GatewayRebuild`, `GatewayPositions`, `GatewayStatus`, `GatewayIndexes` | the startup loop, the position index, terminal statuses, the id indexes |
| `GatewayDeferral`, `GatewayStranding` | held-back reports and orphaned amends, and orders whose intent could not be journaled |
| `GatewayRuns`, `GatewayExamples` | runs put together from operations, and concrete runs from an empty gateway |
| `Laps`, `MpscRing`, `RingBuffer`, `SpscLane` | the two queues, step by step, and the ring as plain code |
| `MarketData`, `MarketRing`, `QuoteBook` | the shared-memory quote ring and the quote slots |
| `RateLimiter` | the arrival-time limiter |
| `Decimals`, `Guidance` | fixed-point numbers and the suggested quantity range |
| `JournalText`, `JournalRecords`, `JournalReading`, `TornTail` | the text of the journal, reading it back, loading and repairing the file |
| `JournalEnds`, `BrokenAppends` | how a file ends after broken appends, and what a restart finds in it |
| `EventCache` | the event cache |

The gateway's steps stand for these sections of `src/application/order_gateway.cpp`: `PlaceStart`
473-580, `CancelStart` 692-758, `AmendStart` 832-899, `Complete` 604-673, 786-822 and 928-1044,
`Append` 1466-1476, `ApplyExecution` 1564-1662 with `Locate` 1771-1791, `QueryStart` and
`QueryAnswers` 1130-1161, `Crash` 386-394 with 1416-1434. A crash step carries the order in which the
recovered table lists its orders; the indexes and positions are what the startup loop makes of it. A
failed append leaves nothing, part, or all but the newline of its record in the file. The gateway keeps
its file in outline, by the table of ends of `JournalEnds`; `BrokenAppends` proves of the characters that
the table is right, for every sequence of appends and every place to break off.

## Where the code does less than its comments or its design say

Each of these is proved twice over: by an input or a run that shows it, and by the exact condition.
The runs of the gateway start from an empty one and take a few steps of one to three threads.

- A null query in reconciliation writes the status without looking at it and without moving the
  position index. An order that turned terminal meanwhile is open again and its symbol's index is off
  (`GatewayExamples.NullQueryBreaksPositions`); exactly when:
  `GatewayPositions.NullQueryKeepsPositionsExactly`, `GatewayStatus.TerminalStatusReopensExactly`. An
  uncertain outcome reopens an order that ended while the call was out
  (`GatewayExamples.UncertainPlaceReopens`), and so does an accepted replacement
  (`GatewayExamples.ReplacementReopens`).
- Acceptance does not settle an amend; only a report does. An amend that completes uncertain, or
  accepted while no report has settled it, leaves its order pending with no thread to complete it
  (`GatewayDeferral.CompletionOrphansExactly`). Usually the amend's own report settles it right after;
  when that is missing, or ended at once and is therefore held back, the order stays so. No cancel or
  amend can start, and the venue's reports of a new generation or of the live one's cancellation are
  held back (`GatewayDeferral.OrphanHoldsExactly`). It ends with exactly the reports and null queries
  of `GatewayDeferral.OrphanEndsExactly`; a restart does not end it
  (`GatewayDeferral.RestartOrphansExactly`). Runs: `GatewayExamples.UncertainAmendOrphans`,
  `GatewayExamples.AcceptedAmendOrphans`.
- An append that breaks off throws, but leaves what it wrote, and the next record goes onto the same line.
  No reader accepts that line, wherever the break lies (`BrokenAppends.SpoiledStays`). If the process
  stops before anything else is written, a restart cuts the line off, and with it a record whose append
  had succeeded (`BrokenAppends.CommittedRecordIsLost`); if something else is written, the file never
  loads again (`BrokenAppends.BrokenAppendBlocksLoading`, input: `BrokenAppends.OneCharacterIsEnough`;
  exactly when: `BrokenAppends.LoadingBlockedExactly`). An order whose intent is lost like that, after
  the venue was called, is unknown after the restart and is sent again on a retry
  (`GatewayExamples.BrokenAppendSendsTwice`, `GatewayTheorems.ForgottenPlaceIsSentAgain`). Nothing else
  makes the gateway send anything twice (`GatewayTheorems.EachOperationIsSentAtMostOnce`); exactly which
  restarts forget: `GatewayMemory.CrashRemembersExactly`, `GatewayMemory.CrashKeepsAnswerExactly`.
- When an intent cannot be appended, its order stays marked busy with nobody at work on it (run:
  `GatewayExamples.FailedAppendStrands`). A new order is then answered as existing although it was never
  sent, and every cancel finds it busy (`GatewayStranding.FailedPlaceIsRemembered`). An order is in this
  state exactly if such an append failed and no restart took place since
  (`GatewayStranding.StrandedOverRunsExactly`).
- A restart takes an order back to its newest record in the file, also out of a terminal status that was
  not journaled (`GatewayExamples.RestartReopens`); exactly when: `GatewayStatus.RestartReopensExactly`.
- A venue id that arrives with the rejection of a place is stored in the order but not in the index
  (`GatewayExamples.RejectedPlaceLeavesGap`); exactly when:
  `GatewayIndexes.CompleteKeepsIndexesExactly`. The same lemma says when an id goes on leading to an
  order that no longer has it: a report brought it, and the answer of the place another
  (`GatewayExamples.OvertakenAnswerDropsId`).
- The venue index is keyed by the id alone. When orders on both venues have the same id, reports of one
  of them under it are lost (`GatewayExamples.SharedIdLosesReport`); exactly when:
  `GatewayIndexes.SoleOwnerIsLocated`, `GatewayIndexes.SharedIdMissesOne`.
- The fast risk checks see no exposure for a symbol outside the registry
  (`GatewayExamples.UnregisteredSymbolExceedsLimit`); exactly when the decision differs:
  `GatewayPositions.UnregisteredDecisionDiffersExactly`.
- An outcome whose code contains the separator byte is not replayed faithfully
  (`Outcomes.ReplayCanDiffer`); exactly when: `Outcomes.ReplayIsFaithfulExactly`.
- A replacement whose reports do not carry the old generation's final fill loses it
  (`CancelReplace.LosingRun`); exactly when: `CancelReplace.ReplacementKeepsTotalExactly`. It is lost for
  good, whatever is reported, traded or replaced afterwards (`CancelReplace.LostFillStaysLost`).
- A report that enlarges a filled order lifts its fill to the new quantity (`CancelReplace.EnlargingRun`);
  above the venue's total exactly when: `CancelReplace.EnlargingExceedsExactly`.
- The end of a merge depends on the order of the reports when they carry no cumulative quotes, different
  order quantities or different venue ids (`MergeConfluence.QuotelessMergesDisagree`,
  `MergeConfluence.QuantityMergesDisagree`, `MergeConfluence.ExchangeIdMergesDisagree`); two such reports
  agree exactly when: `MergeConfluence.QuotelessMergesAgreeExactly`,
  `MergeConfluence.QuantityMergesAgreeExactly`, `MergeConfluence.ExchangeIdMergesAgreeExactly`. Any number
  of others always agree (`MergeConfluence.MergesCommute`).
- `try_pop` of the multi-producer ring takes an unpublished head for a stop sentinel and uses up an
  item permit (`MpscRing.TryPopCanStrandAnItem`); exactly when: `MpscRing.TryPopAbandonsExactly`.
- A quote with sequence zero lets older sequences in again (`QuoteBook.ZeroSequenceRewinds`); exactly
  when: `QuoteBook.SequenceFallsExactly`.
- A symbol with a zero byte comes out of the quote ring shortened
  (`MarketRing.ZeroByteChangesTheSymbol`); exactly when: `MarketRing.DeliveriesArePublications`.
- The limiter's bound ends where its arithmetic saturates or an increment rounds to zero
  (`RateLimiter.BurstsCanBeUnbounded`); exactly when: `RateLimiter.BurstIsUnboundedExactly`.
- The suggested market quantities can lie off the order step, although the message says that the
  range satisfies the venue's rules (`Guidance.SuggestionCanBeOffTheStep`); for which steps:
  `Guidance.EndsOnStepsExactly`. A suggested sell's notional can overflow in the check
  (`Guidance.SellNotionalCanOverflow`); exactly when: `Guidance.RangePassesPreflight`. The product of
  rounding up to a step can overflow (`Guidance.CeilCanOverflow`); exactly when:
  `Guidance.CeilOverflowsExactly`.

## Model

| member | source | states |
|---|---|---|
| GatewayTheorems.EachOperationIsSentAtMostOnce | src/application/order_gateway.cpp:473-603 | over every interleaving of callers, reports, restarts and appends that break off anywhere, two calls under one key go out only if some restart of the run found the only record of that call on a line spoiled by a broken append |
| GatewayTheorems.WhateverIsSentIsJournaled | src/application/order_gateway.cpp:1466-1476 | with the same single exception whatever was sent has its complete intent in the journal |
| GatewayTheorems.ForgottenPlaceIsSentAgain | src/application/order_gateway.cpp:517-603 | after such a restart the order is unknown, and the same create goes to the venue a second time |
| GatewayExamples.BrokenAppendSendsTwice | include/abex/infrastructure/file_order_store_impl.hpp:31-42 | a run of two orders, one broken append and one restart that sends the second order twice |
| GatewayMemory.CallsAreRemembered | src/application/order_gateway.cpp:473-603 | the invariant behind it, of one key at a time, for every run |
| GatewayMemory.AnswersAreRemembered | src/application/order_gateway.cpp:786-822 | the same for the answers that callers of cancels and amends were given |
| GatewayMemory.CrashRemembersExactly | src/application/order_gateway.cpp:386-394 | which restarts forget a call: exactly those that find its only record behind a broken append at the end of the file |
| GatewayMemory.CrashKeepsAnswerExactly | src/application/order_gateway.cpp:386-394 | the same for an answer |
| GatewayTheorems.SendingNeedsDurableIntent | src/application/order_gateway.cpp:1466-1476 | when a venue call goes out its complete intent is already journaled and nothing with the same key was sent before, unless a restart had forgotten that key |
| GatewayTheorems.PlacedOrderIsReplayed | src/application/order_gateway.cpp:473-516 | an order that was ever sent is known in every later state, also after restarts that do not forget it; a retry changes nothing and conflicts exactly when its payload differs |
| GatewayTheorems.OneCallInFlightPerOrder | src/application/order_gateway.cpp:710-758 | two venue calls in flight at the same time are never for the same order |
| GatewayTheorems.CancelRetryIsFaithful | src/application/order_gateway.cpp:790-817 | a cancel whose caller was answered is answered again with the same outcome, now and after restarts that do not forget it, exactly when its code holds no separator |
| GatewayTheorems.AmendRetryIsFaithful | src/application/order_gateway.cpp:853-899 | the same for amends |
| GatewayTheorems.UndisturbedPlaceIsSent | src/application/order_gateway.cpp:556-603 | an accepted create of an idle thread does reach the venue, with its record journaled before the call |
| GatewaySafety.EveryRunIsSafe | src/application/order_gateway.cpp:465-1063 | the protocol invariant (snapshot history, stages, exclusion, the file against the journal) holds after every sequence of steps |
| GatewayMemory.FreshOperationNotCalled | src/application/order_gateway.cpp:495-516 | an operation its order does not remember has never reached a venue, as long as its key was not forgotten, so the idempotency check is enough |
| GatewaySafety.CrashSafe | src/application/order_gateway.cpp:386-394 | losing memory and threads and rebuilding the orders from whatever the file still yields keeps the invariant |
| GatewayRebuild.RebuildIndexes | src/application/order_gateway.cpp:1416-1434 | one pass over the recovered orders, in any listing, computes both id indexes and the positions |
| GatewayRebuild.RebuiltPositionsAreExact | src/application/order_gateway.cpp:1429-1431 | the positions it ends with are the exposure summed over the whole order table |
| GatewayRebuild.ExchangeIndexIsRebuilt | src/application/order_gateway.cpp:1420-1424 | every venue id of a listed order is a key, and every key leads to a listed order that has the id |
| GatewayRebuild.ClientIndexIsRebuilt | src/application/order_gateway.cpp:1425-1427 | the same for client ids and their aliases |
| GatewayRebuild.RestartIsPossibleExactly | src/application/order_gateway.cpp:386-394 | in every reachable state a restart is possible exactly if the file loads: the orders in it can be listed |
| GatewaySafety.MergeReportSafe | src/application/order_gateway.cpp:1606-1662 | merging a stream report at any moment disturbs no operation another thread has in progress |
| GatewayHistory.CompletedExtends | src/application/order_gateway.cpp:604-672 | completing an operation keeps every request and completed outcome an order remembers and adds the caller's answer |
| GatewayHistory.HistoryKeptByCrash | src/application/order_gateway.cpp:1458-1476 | the snapshots that survive a crash still form each order's history, and new sequence numbers are above all of them |
| GatewayHistory.RecoveredIsNewest | src/infrastructure/file_order_store.cpp:247-258 | recovery loads for each order the journaled snapshot with the greatest sequence |
| GatewayPositions.PositionsFollowOrders | src/application/order_gateway.cpp:1388-1442 | at every lock release of every run whose null queries are harmless, index and published snapshot equal the exposure summed over all orders, for every known symbol, also after restarts, whose startup loop sums them anew |
| GatewayPositions.CrashPositions | src/application/order_gateway.cpp:1416-1434 | what the startup loop accumulates from a listing is that equality again |
| GatewayExamples.NullQueryBreaksPositions | src/application/order_gateway.cpp:1130-1161 | a run of a place, a query and a stream report after which a null query reopens a canceled order and the index is no longer exact |
| GatewayPositions.NullQueryKeepsPositionsExactly | src/application/order_gateway.cpp:1150-1161 | the unadjusted reconciliation step keeps that equality exactly for open, fully filled or unregistered orders |
| GatewayPositions.MergeReportPositions | src/application/order_gateway.cpp:1605-1663 | the merge keeps the equality on all its paths, also where it returns before publishing |
| GatewayPositions.UnjournaledKeepsShare | src/application/order_gateway.cpp:1625-1660 | a report that is not journaled leaves the order's exposure alone, which is why the early return may skip publishing |
| GatewayPositions.FastNewCheckAgrees | src/application/risk_manager.cpp:23-56 | the check against the index decides as the check over any listing of all orders |
| GatewayPositions.FastAmendCheckAgrees | src/application/risk_manager.cpp:58-104 | the same for amends, where the order's own share is taken out |
| GatewayPositions.UnregisteredDecisionDiffersExactly | src/application/order_gateway.cpp:1388-1400 | for other symbols the fast check decides otherwise than the full one exactly when all else passes and only one of the order alone and the order on top of all others is within the limit |
| GatewayExamples.UnregisteredSymbolExceedsLimit | src/application/risk_manager.cpp:116-164 | a run in which a second order is accepted that the sum over all orders would refuse |
| Risk.PositionDecidesExactly | src/application/risk_manager.cpp:23-56 | two positions lead to different decisions exactly when the order passes every other check and only one of them leaves it within the limit |
| GatewayPositions.PositionReadsExposureExactly | src/application/order_gateway.cpp:1388-1400 | the index answers rightly exactly for registered symbols and for those without exposure |
| GatewayStatus.TerminalStatusReopensExactly | src/application/order_gateway.cpp:604-672 | between crashes every step keeps a terminal status (or fills the order) except exactly uncertain outcomes, accepted replacements and null queries |
| GatewayStatus.CompletionReopensExactly | src/application/order_gateway.cpp:936-992 | which outcomes of a place, cancel or amend take a terminal order out of its status |
| GatewayStatus.RestartReopensExactly | src/application/order_gateway.cpp:386-394 | a restart keeps a terminal status exactly when the newest record it finds of the order has it or is filled |
| GatewayExamples.RestartReopens | src/application/order_gateway.cpp:386-394 | a run in which the process stops between a reported cancellation and its record, and the restart opens the order again |
| GatewayExamples.UncertainPlaceReopens | src/application/order_gateway.cpp:637-650 | a run in which a place times out after the stream reported the order canceled, and opens it again |
| GatewayExamples.ReplacementReopens | src/application/order_gateway.cpp:936-992 | a run in which an accepted replacement opens an order that the stream had reported filled |
| GatewayIndexes.IndexesNeverDangle | src/application/order_gateway.cpp:1771-1791 | over every run every entry of both id indexes leads to an existing order, so the lookups cannot throw |
| GatewayIndexes.OwnedIdsAreIndexed | src/application/order_gateway.cpp:1616-1622 | over every run without a gap step every venue id and alias an order owns is indexed |
| GatewayIndexes.EntriesStayOwned | src/application/order_gateway.cpp:616-622 | over every run without a drop step every entry of the venue index leads to an order that has the id now |
| GatewayIndexes.CompleteKeepsIndexesExactly | src/application/order_gateway.cpp:604-672 | completing an operation keeps owned ids indexed exactly unless a place is rejected with a new venue id for an order without one that merges the rejection, and keeps entries owned exactly unless an accepted place replaces an id that leads to the order; both conditions are guards on the state before |
| GatewayExamples.RejectedPlaceLeavesGap | src/application/order_gateway.cpp:651-664 | a run of one rejected place whose venue id the order has and no report finds |
| GatewayExamples.OvertakenAnswerDropsId | src/application/order_gateway.cpp:616-622 | a run in which a report overtakes the answer and its venue id then leads to an order without it |
| GatewayIndexes.CrashIndexes | src/application/order_gateway.cpp:1416-1434 | what the startup loop computes from any listing leaves no entry dangling, every owned id indexed and every entry owned, whatever the indexes were before |
| GatewayIndexes.SoleOwnerIsLocated | src/application/order_gateway.cpp:1771-1791 | a report under an owned venue id finds its owner at the owner's venue whenever no other order of any venue has the id |
| GatewayIndexes.SharedIdMissesOne | src/application/order_gateway.cpp:1784-1790 | otherwise the order it does not lead to gets no report of its venue under the id, or the other order gets it |
| GatewayExamples.SharedIdLosesReport | src/application/order_gateway.cpp:1784-1790 | a run of two places on two venues with the same venue id after which one venue's report finds no order |
| GatewayDeferral.HeldReportsWaitForTheirAmend | src/application/order_gateway.cpp:1590-1603 | held-back reports only gain reports behind them until exactly the completion of their order's amend |
| GatewayDeferral.CompletionReleases | src/application/order_gateway.cpp:1032-1060 | the completing amend applies the venue's answer first and then what was held back, in order of arrival |
| GatewayDeferral.ExecutionHoldsExactly | src/application/order_gateway.cpp:1590-1603 | which reports are held back, and that none replaces another |
| GatewayDeferral.CompletionOrphansExactly | src/application/order_gateway.cpp:936-1015 | an amend that completes leaves its order pending with no thread to complete it exactly when its outcome is uncertain, or accepted and not yet settled by a report |
| GatewayExamples.UncertainAmendOrphans | src/application/order_gateway.cpp:1009-1015 | a run in which a timed-out amend does so and the first report of its replacement is held back |
| GatewayExamples.AcceptedAmendOrphans | src/application/order_gateway.cpp:936-1007 | a run in which an accepted replacement does so whose own report says that it ended: the report is held back and the order stays open |
| GatewayDeferral.OrphanRefusesOperations | src/application/order_gateway.cpp:737-758 | no cancel or amend of such an order can start |
| GatewayDeferral.OrphanKeepsHeld | src/application/order_gateway.cpp:1032-1038 | in any reachable state no step but a crash releases the reports held back for such an order |
| GatewayDeferral.OrphanHoldsExactly | src/application/order_gateway.cpp:1590-1603 | what is held back from then on: exactly reports of an unknown generation and of the live one's cancellation, and they leave the order as it is |
| GatewayDeferral.ReportSettlesExactly | include/abex/domain/order_state_machine.hpp:51-61 | an accepted report settles a pending amend exactly when it is of the live generation and ends the order or confirms the requested terms |
| GatewayDeferral.ReportEndsOrphanExactly | src/application/order_gateway.cpp:1590-1662 | of all reports, exactly those that are not held back and settle the amend end the pending state |
| GatewayDeferral.OrphanEndsExactly | src/application/order_gateway.cpp:1130-1161 | of all steps in any reachable state, restarts aside, exactly such a report or a null query of the order ends it |
| GatewayDeferral.OrphanLasts | src/application/order_gateway.cpp:1590-1603 | over any continuation of any run without such a step the order stays pending and nothing held back is released |
| GatewayDeferral.RestartOrphansExactly | src/application/order_gateway.cpp:386-394 | a restart leaves exactly the orders so whose newest journaled snapshot has a pending amend |
| GatewayStranding.FailedIntentStrands | src/application/order_gateway.cpp:580-583 | when the append of an intent breaks off in any reachable state, the order stays busy with no thread at work on it, and neither journal nor calls change |
| GatewayStranding.FailedPlaceIsRemembered | src/application/order_gateway.cpp:503-516 | a create so left behind is in memory and not in the journal, a retry is told that it exists, and every cancel finds it busy |
| GatewayStranding.StrandedRefusesAll | src/application/order_gateway.cpp:744-747 | no cancel, amend or reconciliation query of a stranded order can start |
| GatewayStranding.StrandedExactly | src/application/order_gateway.cpp:1466-1476 | of all steps in any reachable state exactly such an append strands an order and exactly a restart ends it |
| GatewayStranding.StrandedOverRunsExactly | src/application/order_gateway.cpp:1466-1476 | over every run an order is stranded exactly if such an append failed for it and no restart took place since |
| GatewayStranding.StrandedLasts | src/application/order_gateway.cpp:1466-1476 | over every continuation of a run without restarts it stays so, and nothing is sent for it |
| GatewayStranding.RestartEndsStranding | src/application/order_gateway.cpp:386-394 | a restart ends it, and an order of which the file yields nothing is then unknown |
| GatewayExamples.FailedAppendStrands | src/application/order_gateway.cpp:580-583 | a run of two steps that strands an order |
| OrderStateMachine.LiveOrder.Apply | include/abex/domain/order_state_machine.hpp:66-180 | the in-place routine leaves the order and the result that the merge functions define |
| OrderStateMachine.LiveOrder.MergeInPlace | include/abex/domain/order_state_machine.hpp:104-179 | updating field by field, each step reading what earlier steps wrote, ends in the merge computed from the old order |
| OrderStateMachine.LiveOrder.UpdateFills | include/abex/domain/order_state_machine.hpp:120-132 | fill, quote and average after the update |
| OrderStateMachine.MergeFacts | include/abex/domain/order_state_machine.hpp:104-142 | the fields an accepted report decides, in terms of the order before it |
| OrderStateMachine.MergeFrame | include/abex/domain/order_state_machine.hpp:66-180 | what no report touches: identity, aliases, offsets and request memory |
| Lifecycle.LifecycleOverRuns | include/abex/domain/order_state_machine.hpp:66-180 | between any two points of a run whose quantities stay above the fill: fills within bounds and growing, Filled final and complete, Canceled and Rejected giving way to Filled only |
| Lifecycle.TerminalStatusIsFinal | include/abex/domain/order_state_machine.hpp:29-49 | the statuses' part of this for any reports at all |
| Lifecycle.FillBoundsExactly | include/abex/domain/order_state_machine.hpp:91-120 | one report keeps the fill bounds exactly when it does not shrink the quantity below the fill |
| Lifecycle.FilledMeansComplete | include/abex/domain/order_state_machine.hpp:134-135 | an accepted report that ends in Filled has filled the whole quantity |
| Lifecycle.RankDropsExactly | include/abex/domain/order_state_machine.hpp:29-49 | the one kind of report that lowers the status rank |
| Lifecycle.LateReportsNeverDemote | include/abex/domain/order_state_machine.hpp:22-49 | stale and historical reports never do |
| Lifecycle.RunSplits | include/abex/domain/order_state_machine.hpp:66-180 | a run can be cut anywhere, and its quantity hypothesis with it |
| MergeConfluence.MergesCommute | include/abex/domain/order_state_machine.hpp:66-142 | two runs over the same reports of one exchange order, in any order and with any repetition, agree in fill, quote, last sequence, known events and Filled |
| MergeConfluence.RunEndsAtMaxima | include/abex/domain/order_state_machine.hpp:66-142 | and what they agree on are the maxima over the acceptable reports |
| MergeConfluence.QuotelessMergesDisagree | include/abex/domain/order_state_machine.hpp:121-128 | without cumulative quotes two orders of the same two reports give different quotes |
| MergeConfluence.QuotelessMergesAgreeExactly | include/abex/domain/order_state_machine.hpp:120-132 | two of them agree in the fill always, and in the quote exactly when the smaller one adds nothing or the increments are worth the same either way |
| MergeConfluence.QuantityMergesAgreeExactly | include/abex/domain/order_state_machine.hpp:91-135 | two reports with total quantities agree in the quantity exactly when the totals do, and in the fill exactly then or when neither completes anything |
| MergeConfluence.ExchangeIdMergesAgreeExactly | include/abex/domain/order_state_machine.hpp:79-142 | two reports of two venue ids agree in the id exactly if the order had one, and in the fill exactly then or when both orders reach the same |
| MergeConfluence.QuantityMergesDisagree | include/abex/domain/order_state_machine.hpp:91-102 | with different order quantities two orders of the same two reports give different fills |
| MergeConfluence.ExchangeIdMergesDisagree | include/abex/domain/order_state_machine.hpp:80-86 | and so with two venue ids, of which the first one decides which is merged |
| CancelReplace.FillNeverExceedsVenue | src/application/order_gateway.cpp:936-992 | over replacement chains of any length the canonical fill is at most what the venue filled in all generations |
| CancelReplace.FillEqualsVenue | src/application/order_gateway.cpp:936-992 | and equals it when replacements carry the old final fill and the live generation is fully reported |
| CancelReplace.ReplacementKeepsTotalExactly | src/application/order_gateway.cpp:940-965 | one replacement keeps the total exactly when the old final fill was known or is carried |
| CancelReplace.LossLeavesShort | src/application/order_gateway.cpp:940-965 | a replacement that neither knows nor carries the old final fill starts the new generation below what was filled |
| CancelReplace.LostFillStaysLost | include/abex/domain/order_state_machine.hpp:87-135 | from then on, over any honest reports, trades and further replacements, the fill gets no further than the live generation's offset and fill, and stays below the venue's once that has traded |
| CancelReplace.LosingRun | src/application/order_gateway.cpp:940-965 | a run from an acknowledged order that loses two units |
| CancelReplace.EnlargingExceedsExactly | include/abex/domain/order_state_machine.hpp:91-135 | of the reports that do not exaggerate, exactly those that enlarge a filled order beyond the venue's total lift the fill above it |
| CancelReplace.EnlargingRun | include/abex/domain/order_state_machine.hpp:91-135 | a report of an unchanged fill that turns five filled units into seven |
| CancelReplace.FinalOldFill | src/application/order_gateway.cpp:940-955 | the replaced generation's final fill is never below what was already merged |
| Recovery.Recover | src/infrastructure/file_order_store.cpp:247-268 | the startup loop computes the newest snapshot per order and the first free sequence number |
| Recovery.LatestIsNewest | src/infrastructure/file_order_store.cpp:254-258 | every journaled order is loaded, with a record none of its records is newer than |
| Recovery.OrderOfRecordsIsIrrelevant | include/abex/infrastructure/file_order_store_impl.hpp:144-159 | any physical arrangement of the same committed records loads the same snapshots and counter |
| Recovery.MaxSequenceBounds | src/infrastructure/file_order_store.cpp:248-268 | numbers handed out after a restart are above all on disk |
| Positions.ListingSums | src/application/risk_manager.cpp:106-114 | summing any listing of the order table gives the same exposure |
| Positions.ExposureUpdates | src/application/order_gateway.cpp:1402-1414 | replacing one order moves the exposure by the difference of its shares, for every symbol |
| Risk.CheckNew | src/application/risk_manager.cpp:23-33 | the summing form decides as the form with a known position at the summed exposure |
| Risk.CheckAmend | src/application/risk_manager.cpp:58-69 | the same for amends, leaving the order itself out of the sum |
| Risk.ConservativePositions | src/application/risk_manager.cpp:106-114 | one pass accumulates every symbol's exposure |
| Risk.AcceptedStaysWithinLimit | src/application/risk_manager.cpp:116-164 | an accepted order leaves the worst-case position within its limit |
| Fingerprints.CreateIsInjective | src/domain/order.cpp:157-184 | create fingerprints are equal only for equal requests, a missing price counting as the least raw value |
| Fingerprints.AmendIsInjective | src/domain/order.cpp:186-200 | the same for amends |
| Fingerprints.CancelIsInjective | src/domain/order.cpp:202-210 | the same for cancels |
| Fingerprints.KindsAreDisjoint | src/domain/order.cpp:157-210 | fingerprints of different kinds never coincide |
| Fingerprints.CreateConflictsExactly | src/domain/order.cpp:231-234 | against a stored fingerprint of this version a create conflicts exactly when its payload differs |
| Fingerprints.AmendConflictsExactly | src/domain/order.cpp:236-239 | the same for amends |
| Fingerprints.CancelConflictsExactly | src/domain/order.cpp:241-248 | the same for cancels |
| Outcomes.ReplayIsFaithfulExactly | src/application/order_gateway.cpp:250-316 | a stored outcome decodes to the first answer exactly when its code holds no separator byte |
| Outcomes.UnpackExactly | src/application/order_gateway.cpp:286-316 | where the decoder cuts code and message, for any code and message |
| Outcomes.SeparatorCodeIsCut | src/application/order_gateway.cpp:286-316 | a code with a separator is replayed up to it, and the rest of it in the message |
| Outcomes.ReplayCanDiffer | src/application/order_gateway.cpp:286-316 | one answer whose retry shows another code and message than its first caller saw |
| MpscRing.EveryRunIsSafe | include/abex/application/mpsc_ring.hpp:60-113 | stamps, slots, owners and both semaphores are consistent after every interleaving, at every capacity from one on |
| MpscRing.PermitsAddUp | include/abex/application/mpsc_ring.hpp:60-113 | slot permits, claims and stored positions always sum to the capacity, item permits and unfinished pushes to the claimed positions |
| MpscRing.PopsFollowClaims | include/abex/application/mpsc_ring.hpp:79-96 | values come out once each in claim order, and the ring never holds more than its capacity |
| MpscRing.SpinEndsAtOnce | include/abex/application/mpsc_ring.hpp:67-68 | the producer's spin loop succeeds at its first look |
| MpscRing.SlotsAreNotShared | include/abex/application/mpsc_ring.hpp:62-70 | no two live positions, of producers or consumer, use the same slot |
| MpscRing.WaitingConsumerIsServed | include/abex/application/mpsc_ring.hpp:86-89 | before a stop sentinel a consumer that spins waits for a producer that publishes the head in at most three of its own steps |
| MpscRing.TakesRealValues | include/abex/application/mpsc_ring.hpp:90-91 | the optional the consumer moves out of always holds the head's value |
| MpscRing.TryPopAbandonsExactly | include/abex/application/mpsc_ring.hpp:99-106 | try_pop uses up a permit without a value exactly when the head is unpublished |
| MpscRing.ItemsAreReachableExactly | include/abex/application/mpsc_ring.hpp:99-117 | in an idle ring every item has a permit exactly when no more permits were given up than sentinels released |
| MpscRing.TryPopCanStrandAnItem | include/abex/application/mpsc_ring.hpp:99-106 | a run of two producers in which that happens without any sentinel |
| RingBuffer.Buffer.TryPush | include/abex/application/mpsc_ring.hpp:60-73 | without overlap: appends behind all values or reports a full ring |
| RingBuffer.Buffer.TryPop | include/abex/application/mpsc_ring.hpp:99-113 | without overlap: removes the oldest value, or uses up a sentinel's permit |
| RingBuffer.Buffer.PopItem | include/abex/application/mpsc_ring.hpp:79-96 | without overlap: the blocking form once a permit is there |
| RingBuffer.Buffer.Take | include/abex/application/mpsc_ring.hpp:90-95 | moving out and recycling keep the buffer valid for the next lap |
| SpscLane.EveryRunIsSafe | include/abex/application/spsc_execution_lane.hpp:34-138 | flag, counters, semaphores and slots are consistent after every interleaving of submitters, worker, flushes and destructor |
| SpscLane.OneProducerAtATime | include/abex/application/spsc_execution_lane.hpp:42-63 | at most one thread is inside submit past its flag; any other is only counted |
| SpscLane.HandledInOrder | include/abex/application/spsc_execution_lane.hpp:102-138 | accepted reports are handled once each in order, and occupancy never exceeds the capacity |
| SpscLane.FlushWaitsForEarlierReports | include/abex/application/spsc_execution_lane.hpp:65-71 | a flush returns only after every report pushed before it began was handled |
| SpscLane.ExitsOnlyWhenDrained | include/abex/application/spsc_execution_lane.hpp:121-138 | the worker exits only on request and only when all pushed reports were handled |
| SpscLane.NoWakeUpIsWasted | include/abex/application/spsc_execution_lane.hpp:126-128 | the branch for a failed try_pop in the worker is never taken |
| SpscLane.ShutdownReachesTheWorker | include/abex/application/spsc_execution_lane.hpp:34-37 | after the destructor's permit a waiting worker has a permit, or a submitter is about to release one |
| SpscLane.PopsRealReports | include/abex/application/spsc_execution_lane.hpp:110-119 | the slot the worker empties holds the next report |
| MarketRing.DeliveriesArePublications | src/infrastructure/market_data_ring.cpp:259-305 | every delivered quote is exactly one published quote under its own number, numbers grow, and only a zero byte shortens a symbol |
| MarketRing.OnlyOverwrittenNumbersAreSkipped | src/infrastructure/market_data_ring.cpp:269-289 | a reader leaves a number out only when the number one capacity later was already overwriting it, or its symbol is blank |
| MarketRing.ReadersNeverFail | src/infrastructure/market_data_ring.cpp:80-84 | the venue decoder never throws and no cursor runs ahead of the header |
| MarketRing.CheckedCopyIsTheRecord | src/infrastructure/market_data_ring.cpp:277-289 | a cell-by-cell copy between two equal stamps is the record that was published |
| MarketRing.StoresEncode | src/infrastructure/market_data_ring.cpp:199-210 | whatever a slot held, the writer's stores leave exactly the encoded record |
| MarketRing.RecordRoundTrip | src/infrastructure/market_data_ring.cpp:291-299 | decoding an encoded record gives the quote back, exactly for symbols without a zero byte |
| MarketRing.ZeroByteChangesTheSymbol | src/infrastructure/market_data_ring.cpp:291-299 | a quote the writer accepts and every reader shows under another symbol |
| MarketRing.EveryRunIsSafe | src/infrastructure/market_data_ring.cpp:190-305 | stamps and records agree after every interleaving of one writer and any number of readers |
| QuoteBook.AnswersAreLinearizable | src/application/market_data_book.cpp:147-170 | a read returns nothing or exactly the quote of the last update at some moment during the read, hence positive and bid not above ask |
| QuoteBook.OddExactlyMidUpdate | src/application/market_data_book.cpp:23-39 | the version is odd exactly while the flag's holder is between its version steps, and it counts updates |
| QuoteBook.SequenceNeverFalls | src/application/market_data_book.cpp:27-31 | without clears and zero sequences a slot's sequence never goes backwards |
| QuoteBook.SequenceFallsExactly | src/application/market_data_book.cpp:27-38 | one update lowers it exactly when it is a clear or carries sequence zero |
| QuoteBook.ZeroSequenceRewinds | src/application/market_data_book.cpp:28-31 | the numbers 10, 0 and 5 published in this order are all accepted |
| QuoteBook.ContentIsLastUpdate | src/application/market_data_book.cpp:32-38 | the fields after whole updates are the last quote's, or show nothing after a clear |
| QuoteBook.ClearEffect | src/application/market_data_book.cpp:172-183 | a clear withdraws quote and sequence |
| QuoteBook.EveryRunIsSafe | src/application/market_data_book.cpp:17-183 | the sequence lock's invariant for any number of publishers, clearers and readers |
| RateLimiter.ScaledDurationExactly | include/abex/infrastructure/rate_limiter.hpp:84-102 | the 64-bit computation is the exact floor cut off at the largest value |
| RateLimiter.NoIntermediateOverflow | include/abex/infrastructure/rate_limiter.hpp:84-102 | none of its intermediate products or sums overflows |
| RateLimiter.EveryRunIsSafe | include/abex/infrastructure/rate_limiter.hpp:21-40 | whatever the interleaving and spurious failures, admissions conform one after the other in the order of their swaps |
| RateLimiter.WindowBound | include/abex/infrastructure/rate_limiter.hpp:21-40 | any window of admissions adds up to at most the elapsed time plus one capacity, with clocks read in any order, while the arrival time is not saturated |
| RateLimiter.BoundSinceConfiguration | include/abex/infrastructure/rate_limiter.hpp:112-125 | from a configuration on, the bound starts from the units it left available |
| RateLimiter.CostBehindIncrements | include/abex/infrastructure/rate_limiter.hpp:27-28 | the increments account for the admitted cost up to one nanosecond per admission |
| RateLimiter.RefusalIsNeeded | include/abex/infrastructure/rate_limiter.hpp:32-33 | a refused request would have reached a full capacity ahead of its clock |
| RateLimiter.BurstIsUnboundedExactly | include/abex/infrastructure/rate_limiter.hpp:84-110 | a burst at one clock reading never ends exactly when the increment rounds to zero or clock plus tolerance saturate |
| RateLimiter.BurstsCanBeUnbounded | include/abex/infrastructure/rate_limiter.hpp:84-110 | a configuration with a zero increment and one with a saturated one that admit any number of requests at one clock reading |
| RateLimiter.SaturatedPassesExactly | include/abex/infrastructure/rate_limiter.hpp:104-110 | what still passes once the arrival time is saturated |
| Decimals.RoundTrip | src/domain/decimal.cpp:22-111 | every 64-bit raw value, the least included, is read back from its text |
| Decimals.Parse | src/domain/decimal.cpp:22-83 | the scanning and scaling routine computes the parse specification |
| Decimals.FormatTo | src/domain/decimal.cpp:85-111 | the buffer routine writes exactly the text, or reports a short buffer |
| Decimals.TrimTail | src/domain/decimal.cpp:103-110 | the trimming loop stops before the point and leaves the trimmed fraction |
| Decimals.FormatFits | src/domain/decimal.cpp:85-111 | the text fits the buffer the type provides |
| Decimals.FormatHasNoTrailingZeros | src/domain/decimal.cpp:101-110 | and ends neither in a point nor in a zero of its fraction |
| Guidance.Suggest | src/cli/command_processor.cpp:267-343 | the narrowing computation yields the range that tells exactly which quantities on the steps are within the limits and above the minimums, or overflows exactly when a quotient, the bumped quantity or a rounded-up product does |
| Guidance.RangePassesPreflight | src/application/order_gateway.cpp:137-248 | every quantity of the range on the steps passes the instrument and balance checks at that price and keeps the reserve; a sell's notional overflow is the only other outcome |
| Guidance.SmallerQuantitiesAreRejected | src/application/order_gateway.cpp:163-240 | the minimum is tight: smaller quantities on the steps fail a minimum check |
| Guidance.LimitsKeepFunds | src/application/order_gateway.cpp:58-131 | a quantity within the limits needs no more than the usable balance |
| Guidance.LeastQuantityExactly | src/cli/command_processor.cpp:323-329 | the bumped quotient is the least quantity whose truncated notional reaches the bound |
| Guidance.QuotientLimit | src/cli/command_processor.cpp:303-309 | dividing a limit by the price loses no whole quantity |
| Guidance.FloorToStepExactly | src/cli/command_processor.cpp:155-158 | rounding down loses no quantity on the step |
| Guidance.CeilToStepExactly | src/cli/command_processor.cpp:160-165 | rounding up, with the truncating remainder, admits no smaller quantity on the step, and its result lies on it |
| Guidance.CeilOverflowsExactly | src/cli/command_processor.cpp:160-165 | its product leaves the 64-bit range exactly when the value lies above the last multiple of the step |
| Guidance.CeilCanOverflow | src/cli/command_processor.cpp:160-165 | a query whose minimum cannot be rounded up |
| Guidance.EndsOnStepsExactly | src/cli/command_processor.cpp:310-333 | the rounded maximum lies on both steps for every bound exactly when one step divides the other, and so does the rounded minimum |
| Guidance.SuggestionCanBeOffTheStep | src/cli/command_processor.cpp:310-343 | a query whose suggestion is reported as routeable and whose only quantity the gateway rejects |
| Guidance.SellNotionalCanOverflow | src/application/order_gateway.cpp:137-248 | a suggested sell whose notional overflows in the check |
| JournalText.WriteString | include/abex/infrastructure/journal_serializer.hpp:46-67 | the escaping loop appends the literal of the string |
| JournalText.LiteralRoundTrip | include/abex/infrastructure/journal_serializer.hpp:46-67 | a JSON reader takes the string back from the literal and stops right behind it |
| JournalText.LiteralsAreDistinct | include/abex/infrastructure/journal_serializer.hpp:46-67 | different strings have different literals |
| JournalText.LiteralIsOneLine | include/abex/infrastructure/journal_serializer.hpp:46-67 | a literal holds no control character, so no newline |
| JournalRecords.WriteStringSet | include/abex/infrastructure/journal_serializer.hpp:90-95 | the set loop appends the rendered array |
| JournalRecords.RecordsAreFramed | include/abex/infrastructure/file_order_store_impl.hpp:69-112 | a record is one line, closed as a whole and open in every proper beginning, whatever its strings hold |
| JournalRecords.RenderPasses | include/abex/infrastructure/journal_serializer.hpp:90-117 | every rendered value closes its brackets and literals, never closes an outer one, and has no letter outside literals that JSON does not have there |
| TornTail.ReadLines | src/infrastructure/file_order_store.cpp:129-136 | the line loop with its offsets yields the non-empty lines |
| TornTail.JournalFile.Load | src/infrastructure/file_order_store.cpp:120-218 | loading returns the decodable records or the number of a bad line, and repairs the file's end |
| TornTail.CompleteJournalLoads | src/infrastructure/file_order_store.cpp:120-218 | a journal of complete records loads as exactly these and is left alone |
| TornTail.TornTailIsDropped | src/infrastructure/file_order_store.cpp:190-201 | any proper part of one more record is dropped and the file of complete records restored |
| TornTail.MissingNewlineIsAdded | src/infrastructure/file_order_store.cpp:207-216 | a record that lacks only its newline counts and is terminated |
| TornTail.LoadingFailsExactly | src/infrastructure/file_order_store.cpp:190-204 | loading fails exactly when a line other than the last does not decode |
| TornTail.RepairIsStableAndAppendable | src/infrastructure/file_order_store.cpp:190-217 | whatever file loads is left so that it loads the same again and takes further records |
| TornTail.RepairLeavesWhole | src/infrastructure/file_order_store.cpp:207-217 | it then ends between lines and holds exactly the loaded records |
| BrokenAppends.WritesReload | include/abex/infrastructure/file_order_store_impl.hpp:31-42 | for any sequence of appends, each broken off anywhere or complete, what a restart loads and leaves of the file is what the table of ends says |
| BrokenAppends.LoadingBlockedExactly | src/infrastructure/file_order_store.cpp:190-204 | loading fails exactly when something was written behind a record that was appended to a broken one |
| BrokenAppends.CommittedRecordIsLost | src/infrastructure/file_order_store.cpp:190-201 | a record appended behind a broken one, be it only for its newline, is cut off with it by a restart that finds it last |
| BrokenAppends.BrokenAppendBlocksLoading | include/abex/infrastructure/file_order_store_impl.hpp:31-42 | with one more record behind it the file never loads, whatever the records are and wherever the break lies |
| BrokenAppends.OneCharacterIsEnough | include/abex/infrastructure/file_order_store_impl.hpp:31-42 | three records and one character left behind that show both |
| BrokenAppends.SpoiledStays | include/abex/infrastructure/file_order_store_impl.hpp:66-112 | no record appended to a spoiled line makes it acceptable: outside a literal a bracket stays open, inside one the record's first name comes to stand outside |
| BrokenAppends.RecordsAreDistinct | include/abex/infrastructure/file_order_store_impl.hpp:69-112 | different records have different lines |
| BrokenAppends.ReaderExists | src/infrastructure/file_order_store.cpp:139-188 | a reader as these lemmas suppose exists |
| TornTail.WrittenRecordsAreFramed | include/abex/infrastructure/file_order_store_impl.hpp:69-112 | for the JSON serializer the framing hypothesis of these lemmas is met |
| EventCache.Insert | include/abex/infrastructure/file_order_store_impl.hpp:47-55 | binary search, insertion and trimming compute the insertion specification |
| EventCache.ArrivalOrderIsIrrelevant | include/abex/infrastructure/file_order_store_impl.hpp:163-190 | in whatever order events arrive, the cache ends with the newest ones, sorted |

## Hypotheses

- Appended bytes survive a process crash. Power loss and the background sync are not modelled.
- A file that does not load stops the gateway; what an operator then does to the file is not modelled.
- Fill bounds need every accepted report's quantity to be at least the current fill
  (`Lifecycle.KeepsFill`); fill accounting over replacements needs fresh venue ids and no enlargement
  of a filled order beyond the venue's total (`CancelReplace.Honest`).
- Decoding a journal line is a parameter that inverts writing and accepts only text with closed
  brackets and literals; for broken appends also only one object, with no letters outside literals but
  those of true, false, null and exponents, as a JSON parser does (`BrokenAppends.Reader`).
- A create request whose price is the least raw value is identified with one without a price.

## Left out

- Gateway: modelled on values as a transition system, since its theorems quantify over interleavings; the two checks of place before and inside its locked section are one.
- MpscRing, SpscLane, MarketRing, QuoteBook, RateLimiter: likewise on values; memory orders are taken as sequentially consistent and 64-bit counters as unbounded. `RingBuffer` has the ring as code over its fields.
- GatewayPositions.PositionsFollowOrders: assumes harmless null queries, because the code's null query does not adjust the index; the exact condition of one such step is proved.
- MergeConfluence.MergesCommute: one exchange order, cumulative quotes present, no order quantities, because the merge is order dependent otherwise; the exact conditions are for two reports.
- RateLimiter.WindowBound: for a fixed configuration below saturation; reconfiguring during a run is not modelled, and the conversion from floating-point tokens is not either.
- MarketRing.DeliveriesArePublications: within one writer generation, since sequences repeat across generations.
- Decimals.Parse: only the inverse of formatting is claimed for the reader; its exact input grammar is not.
- Decimal overflow exceptions inside the state machine, the position index and the risk checks: arithmetic there is unbounded, so ranges are assumed.
- Wall-clock timestamps, reason texts (rejections carry codes), severities, observers, health status and sequence tracking of the gateway.
- The default request id of an amend, which is derived from its content: the id is part of the request.
- The market-data lookup, venue caches and balance queries before a place: their results are parameters of the step.
- The key-value serializer: its reader does not honour the length prefixes, so it has no round trip.
- The checksum of a record, and the list of an order's fields in its payload: checksum text and payload value are parameters.
- Event records of the operational log take sequence numbers in the gateway model; their text and delivery are left out.
- Ring construction for capacities that are no power of two: the model allows every capacity.
- Observers and the status block of the quote book; it is one slot here, since slots share nothing.
- Transport, configuration, JSON views, the user interface and the simulated exchange.
