# Credits, refunds and submit-once: a verified model

The repository sells credit packs, spends credits on generations at unreliable vendors, and returns
credits or money when something fails. This project models the code where money or a paid vendor
call could be lost or doubled, and proves what that code promises over whole histories.

- **Credit books** (`CreditBooks`, `CreditRules`, `CreditStore`): the append-only ledger keyed by
  idempotency key, grant lots, allocations and refund requests. `CreditRules` says what each
  database transaction does to the tables; `CreditStore.Store` holds the tables as fields and
  updates them in place the way the source does, each method proved equal to its rule.
  `CreditInvariant`, `CreditSteps`, `CreditTransactions`, `CreditRefunds`, `CreditFinalize`,
  `CreditRuns`, `CreditTotals`, `CreditRepeats` and `CreditMoney` prove what every transaction keeps
  and what therefore holds after any history. `CreditFifo`, `CreditCompensation`, `CreditApproval`,
  `CreditSettlement` and `CreditRequests` say of each operation, in terms of the table rows alone,
  exactly when it goes through and what it then writes. `LotPlan` and `Sorting` are the
  first-in-first-out planner.
- **Refund jobs** (`FlittMachine`, `FlittSafety`, `FlittConvergence`, `FlittOneOpen`, `FlittJob`,
  `TbcRefund`, `TbcOverlap`, `TbcJob`): the two provider job processors as step machines in which
  executions interleave, crash and are retried, against a provider whose replies may be ambiguous,
  and the same jobs as imperative code proved to be runs of those machines. `FlittOutcome` and
  `TbcOutcome` say what an execution makes of its request for every answer it may hear.
- **Submit once** (`SubmitOnce`, `SubmitJob`, `SubmitOutcome`, `PollSchedule`): the Suno and Mureka
  workers, with unboundedly many workers on one record, each a sequence of database and vendor
  steps, and what an execution makes of the record for every reply.
- **Arithmetic and text** (`CashRefundMath`, `DecimalText`, `MoneyText`, `FxRate`): half-up
  division, cumulative refunds, decimal scaling, and printing and parsing of money.
- **Timeline** (`Timeline`, `Selection`): moving and resizing regions, their layout, and the source
  ranges of selections.

How to read the credit results: a history starts from the books as they were when lots were
introduced (`CreditRuns.Opening`): any ledger of grants, spends and refunds without a negative
balance, and no lots. Its calls are `Disciplined`: grants are not negative, a credit refund that
names a spend returns at least what the spend took (as `refundOriginalSpend` does), a refund key is
reused only for its spend, and an old grant repeated inside a transaction opens its lot late only
over credit no lot stands for. `GrantKeepsInv`, `RefundKeepsInv`, `LateLotKeepsBacking` and
`MispairedReplay` say exactly when a call that breaks this discipline still keeps the balance ahead
of the lots, and `CreditTotals` gives concrete books where each one does not.

Places where the code does not meet what one would expect of it, each with its exact condition:

- Repeating a ledger call has no effect, except that a grant from before lots existed, repeated
  inside a caller's transaction, gets its lot then. `CreditRuns.ReplayAnywhere` says that this is
  the only exception, `CreditTotals.OwnCallReplay` that no call of the history itself is one, and
  `LateLotBreaksBacking` is an instance where the balance then falls behind the lots.
- A spend refunded under two refund keys is credited twice; the album cover and the timed lyrics
  services do use two keys for one spend. `CreditRepeats.RefundedAgainExactly` says that a refund
  takes the credit beyond what the spend took exactly when a refund row already names the spend;
  `OneUnitRefundedTwice` is an instance.
- Refunding an original spend credits what the row under the spend key took, whether or not that row
  is a spend of the user; only if it is are the guard asked and the lots given their units back.
  `CreditCompensation.RefundSpendOutcome` covers both cases.
- The refunds of a purchase can reach its full price before the whole grant is refunded, because of
  half-up rounding: `CashRefundMath.FullPriceRefunded` is the condition,
  `FullPriceWithoutFullGrant` an instance.
- A TBC payment can be cancelled twice when an execution dies between the cancel call and the write
  that records it. `TbcRefund.CancelsAgainExactly` is the condition, the job's own guard on the
  request row; `CancelledAgainExactly` places it in histories, `LostCallIsRepeated` is an instance.
  Overlapping executions can cancel twice without any crash: `TbcOverlap.OverlapsCancelAgainExactly`
  and `OverlapCancelsTwice`.
- Overlapping Flitt executions of two requests of one payment can leave a request that no later
  execution settles: `FlittConvergence.PassesSettleExactlyWhenCovered` is the condition,
  `OverlapFallsShort` an instance. The API refuses a second request while one is open, with a check
  before the insert and no unique index, so only racing creations get there;
  `FlittOneOpen.OneOpenAlwaysSettles` says that with one open request at a time nothing ends short,
  however executions overlap.

Verify everything with `dafny verify dfyconfig.toml`.

## Model

| member | source | states |
|---|---|---|
| CreditRuns.BalancesBackLots | packages/db/src/credits-ledger.ts:93-210 | after any history a user's balance is at least the sum of the units left in the user's lots, which is never negative, and clawed lots hold zero |
| CreditRuns.CompensationIsExclusive | packages/db/src/spend-credit-compensation.ts:33-88 | after any history a spend with a credit refund has no approved, processing or refunded operation cash refund and no stamped allocation, and no spend has both a stamped and a restored allocation |
| CreditRuns.LotsConserveUnits | packages/db/src/credit-grant-lots.ts:160-225 | after any history, grant = left + spent and not given back + clawed back + forfeited, for every lot |
| CreditRuns.RefundedRequestsAreSettledOnce | packages/db/src/cash-refund-finalize.ts:21-146 | a refunded request with a unit snapshot has its effect exactly once: one clawback row of exactly its units, or exactly its spend's paid allocations stamped with its id; finalizing again changes nothing |
| CreditRuns.ReplayAnywhere | packages/db/src/credits-ledger.ts:227-266 | repeating a ledger call anywhere later in a history changes nothing exactly when it opens no late lot, and then leaves the rest of the history with the same outcome as without the repeat |
| CreditTotals.OwnCallReplay | packages/db/src/credits-ledger.ts:227-266 | a call the history itself made can be repeated at any later time without any effect |
| CreditRuns.CommandReplay | packages/db/src/credits-ledger.ts:101-119 | a call whose key is in the ledger changes no table exactly when it is not an in-transaction grant for an old row without a lot |
| CreditRuns.WriteReplay | packages/db/src/credits-ledger.ts:101-119 | a duplicate write adds no row; in its own transaction it changes nothing, in a caller's exactly when it opens no late lot |
| CreditRuns.LateLotKeepsInv | packages/db/src/credits-ledger.ts:104-113 | a late lot keeps the whole invariant exactly when credit that no lot stands for covers it |
| CreditRuns.StepKeepsInv | packages/db/src/credits-ledger.ts:93-266 | every transaction of the system keeps the invariant of the books |
| CreditRuns.RunKeepsInv | packages/db/src/credits-ledger.ts:93-266 | so does every history of them |
| CreditRuns.OpeningIsInv | packages/db/src/credit-grant-lots.ts:30-39 | any ledger from before lots existed, old grants included, is a valid start |
| CreditTotals.PurchaseNeverOverpaid | packages/db/src/cash-refund-finalize.ts:131-143 | after any history the units clawed back for a purchase plus the units of its lots paid out for operations never exceed the units it granted |
| CreditTotals.LotNeverOverpaid | packages/db/src/cash-refund-finalize.ts:213-244 | the same for each single lot |
| CreditTotals.RunKeepsMatched | packages/db/src/cash-refund-finalize.ts:213-263 | the clawback rows of a purchase always sum to the debits of its lots |
| CreditTotals.MispairedReplayBreaksBacking | packages/db/src/credits-ledger.ts:115-118 | concrete books where replaying a refund key for another spend puts units into a lot without credit behind them |
| CreditTotals.ShortRefundBreaksBacking | packages/db/src/credits-ledger.ts:205-208 | concrete books where refunding less than the spend took does |
| CreditTotals.LateLotBreaksBacking | packages/db/src/credits-ledger.ts:104-113 | concrete opening books where repeating an old spent grant opens its lot with no credit behind it |
| CreditTotals.NegativeGrantBreaksBacking | packages/db/src/credits-ledger.ts:166-187 | concrete books where a negative grant leaves the balance below the lots |
| CreditTransactions.SpendSucceedsExactly | packages/db/src/credits-ledger.ts:121-138 | a spend under a fresh key succeeds exactly when 0 < amount <= balance; then the balance falls by the amount, the lots by what unlotted credit does not cover, and the invariant holds; otherwise nothing changes |
| CreditTransactions.SpendWrites | packages/db/src/credit-grant-lots.ts:148-182 | an affordable spend writes one row and only new untouched allocations of its own |
| CreditFifo.SpendDrawsOldestFirst | packages/db/src/credit-grant-lots.ts:133-182 | a written spend adds exactly its row and allocations that record what each of the user's unclawed lots gave, changes nothing else, and takes from no lot while an older unclawed lot of the user has units left |
| CreditFifo.SpendIsFifo | packages/db/src/credit-grant-lots.ts:49-182 | after any history: a spend takes units granted later only when nothing is left of any unclawed lot of the user that stands for an earlier grant |
| CreditFifo.RunKeepsStanding | packages/db/src/credit-grant-lots.ts:85-123 | in every history each lot stands for one ledger row, with its owner, purchase, amount and time, and no two lots for the same row |
| CreditTransactions.ConsumeAll | packages/db/src/credit-grant-lots.ts:160-181 | drawable draws within the spend's amount all go through, take exactly their sum from the owner's lots and nothing from anyone else's |
| CreditTransactions.PlannedDrawsAreDrawable | packages/db/src/credit-grant-lots.ts:133-171 | a plan over the loaded lots passes every conditional update: one draw per lot, within what the lot holds, from the user's own unclawed lots |
| CreditTransactions.LoadedUnits | packages/db/src/credit-grant-lots.ts:133-147 | the loaded lots hold exactly the user's remaining units, all available |
| CreditTransactions.GrantKeepsInv | packages/db/src/credit-grant-lots.ts:85-123 | a grant keeps the invariant, except that the backing survives exactly when it is non-negative or the balance covers it |
| CreditTransactions.GrantReplay | packages/db/src/credit-grant-lots.ts:101-107 | a replayed grant changes nothing exactly when its lot exists or it granted nothing, and afterwards its lot exists |
| CreditTransactions.LateLotKeepsBacking | packages/db/src/credits-ledger.ts:104-113 | opening a lot for an old row, in any backed books, keeps the backing exactly when that much credit is unlotted |
| LotPlan.PlanFifoLotConsumption | packages/db/src/credit-grant-lots.ts:49-81 | the planning loop computes the plan function |
| LotPlan.PlanExists | packages/db/src/credit-grant-lots.ts:49-81 | a plan exists exactly when 0 < amount <= unlotted + available units |
| LotPlan.PlanIsFifo | packages/db/src/credit-grant-lots.ts:49-81 | a plan's parts sum to the amount, unlotted credit goes first, no lot gives more than it holds, and a lot gives only once every older lot is emptied |
| LotPlan.DrawnFromLot | packages/db/src/credit-grant-lots.ts:64-75 | exactly how much each lot gives, from what the lots before it could not cover |
| LotPlan.OneDrawPerLot | packages/db/src/credit-grant-lots.ts:64-75 | no lot is drawn twice |
| Sorting.SortIsOrdered | packages/db/src/credit-grant-lots.ts:63-63 | the sort orders by key |
| Sorting.SortPermutes | packages/db/src/credit-grant-lots.ts:63-63 | and is a permutation |
| Sorting.SortIsStable | packages/shared/src/utils/region-selection.ts:15-17 | and keeps rows with equal keys in their order |
| CreditRefunds.RefundKeepsInv | packages/db/src/credits-ledger.ts:140-164 | a credit refund is blocked exactly when its spend is or may be paid out in money; otherwise the backing survives exactly when its amount and the unlotted credit cover what it puts back into lots |
| CreditRefunds.FullRefundKeepsInv | packages/db/src/credits-ledger.ts:140-208 | refunding at least what the spend took keeps the whole invariant |
| CreditCompensation.RefundRefusedExactly | packages/db/src/spend-credit-compensation.ts:33-88 | a refund under a fresh key is refused, writing nothing, exactly when the user has the spend it names and an allocation of it is stamped or an operation request for it is approved, processing, refunded, or under review with an attempt on record; otherwise it writes one row and returns exactly what is still out to the lots it came from |
| CreditCompensation.RefundSpendOutcome | packages/db/src/credits-ledger.ts:425-475 | refunding an original spend: nothing to refund without a row that took units, refused by that guard, or credited exactly what the row took |
| CreditCompensation.ReviewedAttemptBlocksRefund | packages/db/src/spend-credit-compensation.ts:76-84 | after a job left a trace of its provider call and the request went to review, refunding its spend in credits changes nothing |
| CreditRefunds.RefundOriginalSpendOnce | packages/db/src/credits-ledger.ts:425-475 | the first refund of a spend writes one row of exactly the spent amount unless the spend is blocked, when it writes nothing; a second call with the pair changes nothing |
| CreditTotals.OneRefundRowForGood | packages/db/src/credits-ledger.ts:425-475 | refunding an original spend leaves for good exactly one row under its refund key, of exactly the spent amount; repeating the call after any later history changes nothing |
| CreditRepeats.RefundedAgainExactly | packages/db/src/credits-ledger.ts:425-475 | after any history over refund rows that paid in full: refunding an allowed spend under a fresh key credits the whole spend once more, and takes the credit beyond what the spend took exactly when a refund row names the spend already |
| CreditRepeats.RunKeepsFull | packages/db/src/credits-ledger.ts:140-164 | in every history, each refund row that names a spend pays at least what the spend took |
| CreditRepeats.TwoKeysPayTwice | packages/db/src/credits-ledger.ts:425-475 | two fresh refund keys are disciplined calls and credit an allowed spend twice |
| CreditRepeats.OneUnitRefundedTwice | apps/api/src/modules/music/album-cover.service.ts:184-230 | a concrete history that credits two units for a spend of one |
| CreditTotals.RunGrows | packages/db/src/credits-ledger.ts:166-177 | no history ever changes or removes a ledger row |
| CreditRefunds.RefundSpendKeepsInv | packages/db/src/credits-ledger.ts:425-475 | the whole operation keeps the invariant, and is a no-op once its refund row exists |
| CreditRefunds.RefundReplay | packages/db/src/credit-grant-lots.ts:184-226 | repeating a refund for the same spend gives nothing back twice |
| CreditRefunds.MispairedReplay | packages/db/src/credits-ledger.ts:212-225 | a replay naming another spend keeps the backing exactly when that much credit is unlotted |
| CreditSteps.RestoreGivesBack | packages/db/src/credit-grant-lots.ts:184-226 | restoring a spend returns to its owner's lots exactly the units still out in unclawed lots and not stamped, and touches no other user's lots |
| CreditSteps.RestoredAllocations | packages/db/src/credit-grant-lots.ts:190-212 | what restoring does to every allocation: restored if neither restored nor stamped, else untouched |
| CreditFinalize.ApproveKeepsInv | apps/api/src/modules/billing/refund.service.ts:305-418 | approval keeps the invariant, whatever the entitlement says |
| CreditFinalize.ApprovedSnapshot | packages/db/src/cash-refund-entitlement.ts:48-254 | an approved request carries positive units that still fit the grant beside everything counted, and their cumulative share of the price, within what the price still allows; a remainder's units are all that is left and not counted, an operation's exactly its spend's paid units |
| CreditApproval.ApprovedExactly | apps/api/src/modules/billing/refund.service.ts:333-409 | a requested refund is approved in full exactly when its scope entitles its user to a positive amount from the request's own purchase, and that amount fits the price beside all that was paid out |
| CreditApproval.EntitledApproval | packages/db/src/cash-refund-entitlement.ts:81-254 | what it is then approved for: a remainder for what is left of the oldest lot and not paid out, an operation for the paid parts of its intact spend, each at its increment of the price; an entitlement to more, or from another purchase, changes nothing |
| CreditApproval.RefusedApproval | apps/api/src/modules/billing/refund.service.ts:371-385 | a request entitled to nothing goes to review |
| CreditApproval.OtherApprovals | apps/api/src/modules/billing/refund.service.ts:346-363 | a partial amount always goes to review; a request that does not wait is left alone |
| CreditFinalize.OperationEntitledExactly | packages/db/src/cash-refund-entitlement.ts:145-254 | exactly when a spend is entitled to an operation refund, and that in sound books it is never refused for a missing lot |
| CreditFinalize.ApprovedOperationBlocksCreditRefund | packages/db/src/spend-credit-compensation.ts:33-88 | an operation is approved only when nothing was restored or stamped, and from then on its spend cannot be refunded in credits |
| CreditFinalize.EntitledSpendHasNoCreditRefund | packages/db/src/cash-refund-entitlement.ts:157-187 | an operation is entitled to money only if no credit refund row names its spend |
| CreditFinalize.EffectsAreSettled | packages/db/src/cash-refund-finalize.ts:21-73 | local effects are all or nothing; once they succeed, a request with a snapshot has its full effect in the books |
| CreditFinalize.RemainderIsSettled | packages/db/src/cash-refund-finalize.ts:148-263 | the remainder debit and its clawback row come together, with exactly the snapshot's units, or not at all |
| CreditFinalize.OperationIsSettled | packages/db/src/cash-refund-finalize.ts:75-146 | stamping covers exactly the paid allocations of the spend, or nothing |
| CreditFinalize.LegacyClawsFullGrant | packages/db/src/credit-grant-lots.ts:401-414 | the reservation clawback applies only to the user's own lot with remaining equal to the full grant, and takes all of it |
| CreditFinalize.RefundedEffectsAreFinal | packages/db/src/cash-refund-finalize.ts:114-168 | running the effects of a settled request again recognises them and changes nothing |
| CreditFinalize.MarkRefundedKeepsInv | packages/flitt-checkout/src/process-flitt-refund.ts:175-249 | marking refunded happens together with the local effect, or the request goes to review |
| CreditSettlement.SettledExactly | packages/flitt-checkout/src/process-flitt-refund.ts:175-249 | a paid request under way ends refunded, with exactly its local effect, when its purchase has no user any more or the books let the effect through; otherwise the books stay and it goes to review |
| CreditSettlement.RemainderSettlesExactly | packages/db/src/cash-refund-finalize.ts:148-263 | a remainder goes through exactly when its row is there already or the user's oldest lot of the purchase holds its positive units; then that lot loses exactly those, is clawed exactly when none are left, and one row records it |
| CreditSettlement.OperationSettlesExactly | packages/db/src/cash-refund-finalize.ts:75-146 | an operation goes through exactly when its stamps are there already or nothing was given back, nothing is stamped and the paid parts are worth its units; then exactly those parts are stamped |
| CreditSettlement.LegacySettlesExactly | packages/db/src/credit-grant-lots.ts:344-509 | a request without a snapshot goes through exactly when its row is there already or the purchase's oldest lot is the user's, not clawed, and whole if held for the request; only a held lot is cleared |
| CreditRequests.DueIsRefunded | packages/db/src/cash-refund-finalize.ts:21-73 | a request that is due its money, approved, claimed and paid with nothing in between, ends refunded |
| CreditRequests.RequestsMoveOnce | packages/flitt-checkout/src/process-flitt-refund.ts:116-229 | over any history a request keeps its owner, purchase and scope, its terms once it no longer waits, and its provider reference; once refunded, rejected, failed or under review it never changes |
| CreditRequests.StepKeepsRequests | apps/api/src/modules/billing/refund.service.ts:305-418 | every transaction moves requests only along the permitted statuses |
| CreditFinalize.FailKeepsInv | packages/tbc-checkout/src/process-tbc-refund.ts:116-145 | failing a request releases its lot and keeps the invariant |
| CreditRequests.FailedExactly | packages/tbc-checkout/src/process-tbc-refund.ts:116-145 | failing marks a request under way failed and opens every lot held for it; no other lot changes |
| CreditFinalize.ReserveKeepsInv | packages/db/src/credit-grant-lots.ts:249-288 | reserving a lot keeps the invariant: a reservation always holds the whole grant |
| CreditRequests.ReservedExactly | packages/db/src/credit-grant-lots.ts:249-288 | reserving succeeds exactly when the user's oldest lot of the purchase is open and whole and the request holds none, and holds the whole grant |
| CreditStore.Store.EnsureLotForGrant | packages/db/src/credit-grant-lots.ts:85-123 | the in-place method is the rule on the tables |
| CreditStore.Store.FindFirstLot | packages/db/src/credit-grant-lots.ts:253-256 | the scan finds the oldest matching lot, among equally old ones the first inserted, and nothing exactly when none matches |
| CreditStore.Store.ConsumeLotsForSpend | packages/db/src/credit-grant-lots.ts:148-182 | the loop of conditional updates fails exactly when there is no plan or a planned lot does not hold enough, and otherwise does all draws |
| CreditStore.Store.RestoreLotsForSpend | packages/db/src/credit-grant-lots.ts:184-226 | the restoring loop is the rule on the tables |
| CreditStore.Store.WriteLedgerEntry | packages/db/src/credits-ledger.ts:93-210 | the write inside a transaction is the rule, up to the rollback of what throws |
| CreditStore.Store.WriteIdempotentTransaction | packages/db/src/credits-ledger.ts:227-266 | the write in its own transaction is the rule, rollback included |
| CreditStore.Store.RefundOriginalSpend | packages/db/src/credits-ledger.ts:425-475 | the method is the rule, result and tables |
| CreditStore.Store.ReservePurchaseLotForRefund | packages/db/src/credit-grant-lots.ts:249-288 | succeeds exactly on an open, unreserved, untouched lot |
| CreditStore.Store.ReleasePurchaseLotReservation | packages/db/src/credit-grant-lots.ts:290-309 | frees the lot held for the request, unless clawed |
| CreditStore.Store.FinalizeCreditPackRefundClawback | packages/db/src/credit-grant-lots.ts:428-509 | the legacy clawback is the rule on the tables |
| CreditStore.Store.FinalizeOperationCashEffects | packages/db/src/cash-refund-finalize.ts:75-146 | the checks in order, then the stamping loop |
| CreditStore.Store.StampAllPaid | packages/db/src/cash-refund-finalize.ts:131-143 | every conditional stamp of the loop hits, and exactly the paid allocations are stamped |
| CreditStore.Store.FinalizePurchaseRemainderEffects | packages/db/src/cash-refund-finalize.ts:148-263 | the remainder debit is the rule on the tables |
| CreditStore.Store.FinalizeUserCashRefundLocalEffects | packages/db/src/cash-refund-finalize.ts:21-73 | dispatch on snapshot and scope |
| CreditStore.Store.MarkRequestRefunded | packages/flitt-checkout/src/process-flitt-refund.ts:175-249 | one transaction for effects and status; a violation rolls it back and asks for review |
| CreditStore.Store.Execute | packages/db/src/credits-ledger.ts:93-266 | any disciplined call on tables that satisfy the invariant is the abstract step and keeps the invariant |
| CashRefundMath.CumulativeRefundsTelescope | packages/shared/src/constants/cash-refund.ts:22-52 | for any split of at most the grant the amounts are non-negative, sum to the half-up share of the total, and never exceed the price |
| CashRefundMath.FullPriceRefunded | packages/shared/src/constants/cash-refund.ts:41-49 | the refunds reach the price exactly when the unrefunded units are worth at most half a minor unit; refunding the whole grant always does |
| CashRefundMath.FullPriceWithoutFullGrant | packages/shared/src/constants/cash-refund.ts:41-49 | two of three units already return a price of one minor unit |
| CashRefundMath.IncrementDrift | packages/shared/src/constants/cash-refund.ts:41-49 | each amount is strictly within one minor unit of its exact share, whatever was counted before |
| CashRefundMath.RefundsDrift | packages/db/src/cash-refund-entitlement.ts:36-76 | n amounts whose predecessors may have dropped out stay within n minor units of the exact total |
| CreditMoney.PurchaseDrift | packages/db/src/cash-refund-entitlement.ts:36-76 | after any history, the money of a purchase's n approved, processing or refunded snapshot requests, whichever others failed in between, is strictly within n minor units of price * units / grant |
| CreditMoney.RunKeepsPriced | apps/api/src/modules/billing/refund.service.ts:391-409 | in every history each request with a unit snapshot keeps the amount of its units at the price and grant of its purchase |
| CashRefundMath.HalfUpIsNearest | packages/shared/src/fx/usd-gel.ts:70-83 | the quotient is the one nearest integer, ties going up |
| CashRefundMath.IncrementIsComputed | packages/shared/src/constants/cash-refund.ts:31-49 | the computation fails on exactly the bad inputs and otherwise yields the increment |
| FlittSafety.RefundedNeverExceedsReversal | packages/flitt-checkout/src/process-flitt-refund.ts:276-455 | however jobs interleave, crash, retry and hear ambiguous or lagging answers, and whenever the provider books a reverse, the money of refunded requests never exceeds the provider's cumulative reversal, which is one reversal per reverse id taken and never exceeds the charge |
| FlittSafety.SettledStaysSettled | packages/flitt-checkout/src/process-flitt-refund.ts:116-229 | a refunded, failed or reviewed request is never touched again by any stale job |
| FlittMachine.StepKeepsInv | packages/flitt-checkout/src/process-flitt-refund.ts:276-455 | every step keeps: behind each refunded request the provider reversed all that was counted up to it |
| FlittMachine.AppliedMeansReversed | packages/flitt-checkout/src/process-flitt-refund.ts:74-107 | what a job concludes from an answer and an earlier sum is still true of the provider when it acts |
| FlittConvergence.TwoPassesSettleEverything | packages/flitt-checkout/src/process-flitt-refund.ts:276-455 | for any requests of a payment, whatever failed or was reviewed before: if what is counted and what is still to be reversed fit the charge and the reversal covers all that is refunded or had its own reverse taken, then with a provider that accepts and answers two passes of the job in any order leave every due request refunded or under review, and touch no other |
| FlittConvergence.AllApprovedIsReady | packages/flitt-checkout/src/process-flitt-refund.ts:276-455 | any approved, untouched requests whose sum is within the charge are such a start |
| FlittConvergence.PassesSettleExactlyWhenCovered | packages/flitt-checkout/src/process-flitt-refund.ts:348-363 | between executions, with room within the charge: two passes settle a due request exactly when the reversal covers all that is refunded or had its own reverse taken |
| FlittConvergence.ShortfallSticks | packages/flitt-checkout/src/process-flitt-refund.ts:359-375 | while the reversal is less than that, no number of passes settles any due request |
| FlittConvergence.OverlapFallsShort | packages/flitt-checkout/src/process-flitt-refund.ts:276-455 | a concrete run of two overlapping executions, for two requests open at once, that ends so |
| FlittConvergence.JobOutcome | packages/flitt-checkout/src/process-flitt-refund.ts:338-455 | what one execution does with such a provider to any due request with a positive amount: it closes it when all that is counted is reversed, before or after its own reverse, and else leaves it processing with both markers |
| FlittConvergence.JobIsRun | packages/flitt-checkout/src/process-flitt-refund.ts:276-455 | an execution is a run of the step machine |
| FlittOutcome.LookedJob | packages/flitt-checkout/src/process-flitt-refund.ts:313-380 | when the first look settles the matter: enough reversed closes the request, a network error leaves it, anything else sends it to review, without a reverse call |
| FlittOutcome.RefusedJob | packages/flitt-checkout/src/process-flitt-refund.ts:381-437 | a rejected reverse fails the request, an unexpected one sends it to review |
| FlittOutcome.ReversedJob | packages/flitt-checkout/src/process-flitt-refund.ts:381-455 | after a confirmed or ambiguous reverse the attempt is on record, and the second look closes the request, sends it to review, or leaves it for the next execution |
| FlittOneOpen.OneOpenAlwaysSettles | apps/api/src/modules/billing/refund.service.ts:182-196 | if requests of a payment are approved only while no other is in flight: after any interleaving of executions, crashes and ambiguous answers, two passes settle the open request, provided its reverse was taken or fits the charge |
| FlittOneOpen.RunKeepsOneOpen | packages/flitt-checkout/src/process-flitt-refund.ts:276-455 | then only the last request is ever in flight, and the reversal always covers all that is refunded or had its own reverse taken |
| FlittJob.Desk.ProcessFlittRefundJob | packages/flitt-checkout/src/process-flitt-refund.ts:276-455 | the job as code does exactly what the machine's job does, and what it reports is what the row says |
| FlittJob.Desk.SumCounted | packages/flitt-checkout/src/process-flitt-refund.ts:90-107 | the sum of the counted amounts |
| TbcRefund.CancelledAtMostOnce | packages/tbc-checkout/src/process-tbc-refund.ts:253-450 | over any executions, replies and crashes the payment is cancelled at most once, plus once per execution that died before recording its call |
| TbcRefund.CancelsAgainExactly | packages/tbc-checkout/src/process-tbc-refund.ts:342-379 | between executions a further cancel can follow, in uninterrupted executions or any, exactly when the request is in flight, has its amount and carries no attempt marker |
| TbcRefund.CancelledAgainExactly | packages/tbc-checkout/src/process-tbc-refund.ts:342-379 | after any history a cancelled payment can be cancelled again exactly then, and then an execution died unrecorded for each cancel so far; dying in that window always leaves it so |
| TbcRefund.LostCallIsRepeated | packages/tbc-checkout/src/process-tbc-refund.ts:366-378 | a concrete run with such a death and two cancels |
| TbcRefund.LaterJobsOnlyReconcile | packages/tbc-checkout/src/process-tbc-refund.ts:342-364 | after an execution that cancelled, no later execution cancels |
| TbcRefund.TerminalIsAbsorbing | packages/tbc-checkout/src/process-tbc-refund.ts:266-276 | terminal rows cause no write and no provider call |
| TbcRefund.JobIsRun | packages/tbc-checkout/src/process-tbc-refund.ts:253-450 | an execution is a run of the step machine |
| TbcOutcome.RefundedMeansReturned | packages/tbc-checkout/src/process-tbc-refund.ts:328-450 | over any executions, retries and crashes a request becomes refunded only after an execution read the payment as returned |
| TbcOutcome.LookedJob | packages/tbc-checkout/src/process-tbc-refund.ts:315-364 | when the first look settles the matter: returned is recorded, being cancelled or a network error waits, anything else goes to review, without a cancel |
| TbcOutcome.RefusedJob | packages/tbc-checkout/src/process-tbc-refund.ts:366-423 | a rejected cancel fails the request, an unexpected one sends it to review |
| TbcOutcome.CancelledJob | packages/tbc-checkout/src/process-tbc-refund.ts:366-450 | after a confirmed or ambiguous cancel the attempt is on record, and the second look records the refund, waits, or sends the request to review |
| TbcOverlap.OverlapsCancelAgainExactly | packages/tbc-checkout/src/process-tbc-refund.ts:253-388 | with any number of overlapping executions, one more cancel can follow, crash or no crash, exactly when the row still looks uncancelled or some worker that read it so has not called yet and would still pass its claim |
| TbcOverlap.AloneIsSequential | packages/tbc-checkout/src/process-tbc-refund.ts:258-309 | for one worker alone, reading and claiming are the load of the single execution |
| TbcOverlap.OverlapCancelsTwice | packages/tbc-checkout/src/process-tbc-refund.ts:253-388 | a concrete run of two overlapping executions that cancels twice without a crash |
| TbcOverlap.RefundedMeansReturned | packages/tbc-checkout/src/process-tbc-refund.ts:253-450 | the same with overlapping executions |
| TbcOverlap.EndedRowStays | packages/tbc-checkout/src/process-tbc-refund.ts:86-145 | however executions overlap, a request that has ended is never touched again |
| TbcJob.Desk.ProcessTbcRefundJob | packages/tbc-checkout/src/process-tbc-refund.ts:253-450 | the job as code does exactly what the machine's job does, and what it reports is what the row says |
| SubmitOnce.AtMostOnePossiblyAccepted | apps/worker/src/processors/process-provider-job.ts:65-222 | under any interleaving of workers, crashes, retries and re-enqueues every POST but the last was turned down for capacity, and no two are in flight |
| SubmitOnce.PostOnlyAfterCapacityRejections | apps/worker/src/processors/process-provider-job.ts:242-260 | a POST leaves only when every earlier one was turned down for capacity, and at most once per claim |
| SubmitOnce.ClaimKeepsInv | apps/worker/src/processors/process-mureka-provider-job.ts:153-171 | a claim goes through only when every earlier POST was turned down for capacity |
| SubmitOnce.AcceptedPostIsTheLast | apps/worker/src/processors/process-mureka-provider-job.ts:173-202 | once the vendor took a POST on there is never another claim or POST |
| SubmitOnce.SubmittedTaskIsStable | apps/worker/src/processors/process-provider-job.ts:262-353 | a submitted record carries the id of its one accepted POST, and no later persist, recovery, retry or callback changes it |
| SubmitOnce.SubmitExactlyWhenUnsubmitted | apps/worker/src/processors/mureka-music-generate-action.ts:12-41 | when a job considers a POST at all, for both vendors |
| SubmitOnce.CallbackKeepsInv | apps/api/src/modules/music/suno-callback.service.ts:532-575 | a callback keeps what holds in every run |
| SubmitOutcome.CallbackHits | apps/api/src/modules/music/suno-callback.service.ts:532-575 | a callback binds only an accepted id, exactly to a Suno record without an id whose POST may have been accepted |
| SubmitJob.Desk.ProcessMusicGenerateJob | apps/worker/src/processors/process-provider-job.ts:65-222 | the job as code does exactly what one execution of the machine does |
| SubmitJob.Desk.PersistProviderTaskId | apps/worker/src/processors/process-provider-job.ts:288-353 | the persist loop succeeds exactly when some try reaches the database and the row is open for the id or has a real one |
| SubmitJob.Desk.ClaimDispatching | apps/worker/src/processors/process-mureka-provider-job.ts:153-171 | the conditional claim |
| SubmitJob.Desk.MarkSubmitUnknown | apps/worker/src/processors/process-provider-job.ts:394-431 | the conditional update that forbids automatic POSTs |
| SubmitJob.JobIsRun | apps/worker/src/processors/process-provider-job.ts:65-222 | an execution is a run of the step machine |
| SubmitOutcome.DecidesExactly | apps/worker/src/processors/mureka-music-generate-action.ts:12-41 | which records a job leaves alone, recovers, marks as orphaned, or considers a POST for |
| SubmitOutcome.AcceptedJob | apps/worker/src/processors/process-provider-job.ts:262-353 | an accepted POST submits the record under its id; when the database cannot be reached the id is kept on the job and the record closed to automatic POSTs, at once or on the last try |
| SubmitOutcome.RejectedJob | apps/worker/src/processors/process-provider-job.ts:374-431 | a rejection fails the record, or for want of capacity puts it back in the queue until the last try |
| SubmitOutcome.AmbiguousJob | apps/worker/src/processors/process-provider-job.ts:394-431 | an answer that settles nothing closes the record to automatic POSTs |
| SubmitOutcome.RecoveredJob | apps/worker/src/processors/process-provider-job.ts:83-110 | a later execution writes a saved id, without any POST, exactly when the record is still open for it |
| SubmitOutcome.IdHits | apps/worker/src/processors/process-provider-job.ts:288-353 | whatever other workers did meanwhile, an id is written exactly to a record that is open for it and for its attempt |
| SubmitOutcome.StepMovesSubmission | apps/worker/src/processors/process-provider-job.ts:65-431 | no step returns an unknown submission to the queue, and a submitted one only stays or fails |
| PollSchedule.RecoveryAttemptIsNextPoll | apps/worker/src/mureka-provider-job-reconciler.ts:253-259 | the closed form is the least poll whose time, by iterating the delay from the submission, is still ahead |
| PollSchedule.PollTimeClosed | packages/shared/src/constants/mureka-provider-job-queue.ts:64-67 | when the n-th poll happens |
| PollSchedule.PollsWithinTimeout | apps/worker/src/processors/process-mureka-provider-job.ts:256-275 | on schedule, exactly the polls up to number 66 come before the timeout |
| MoneyText.PrintedAmountReadsBack | packages/shared/src/constants/cash-refund.ts:55-71 | printing minor units and parsing them is the identity |
| MoneyText.ReadAmountPrintsBack | packages/shared/src/constants/cash-refund.ts:64-71 | parsing and printing gives the text back exactly when it was canonical |
| MoneyText.FlittReadsExactlyPositiveSafeAmounts | packages/flitt-checkout/src/flitt-amount.ts:55-77 | the provider's parser accepts exactly the readable amounts that are positive and safe integers, with the same value |
| MoneyText.FlittReadsPrintedAmounts | packages/flitt-checkout/src/flitt-amount.ts:55-77 | of printed amounts, the provider's parser reads exactly the positive safe ones |
| MoneyText.AmountReadExactly | packages/shared/src/constants/cash-refund.ts:64-71 | what a readable amount denotes: whole units and hundredths, a single digit after the point counting tenths |
| DecimalText.SplitsExactly | packages/shared/src/fx/usd-gel.ts:44-59 | a text is read exactly when, surrounding white space aside, it is digits with at most one point and at least one, but not too many, digits after it; and then as just these |
| FxRate.ParsesExactly | packages/shared/src/fx/usd-gel.ts:44-59 | exactly the texts of positive numbers are accepted, as that number at its own scale |
| FxRate.DividePositiveDecimalByInteger | packages/shared/src/fx/usd-gel.ts:99-121 | the scaling loop terminates and computes the division function |
| FxRate.DivisionIsExactOrHalfUp | packages/shared/src/fx/usd-gel.ts:99-121 | the quotient is exact, at the smallest scale, whenever eight decimals suffice, else off by at most half a last place; the text denotes exactly that number; only quotients that round to zero are refused |
| FxRate.ScaledExactly | packages/shared/src/fx/usd-gel.ts:109-112 | where the loop stops |
| FxRate.FormattedReadsBack | packages/shared/src/fx/usd-gel.ts:85-93 | a printed decimal reads back as the same number in lowest scale |
| FxRate.ConversionWithinHalfTetri | packages/shared/src/fx/usd-gel.ts:137-160 | the charge is the one tetri amount within half a tetri of the exact product; which inputs fail; the printed amount reads back |
| Timeline.ResolveTrackRegions | packages/shared/src/utils/region-selection.ts:19-58 | the in-place pass computes the track function |
| Timeline.TrackIsPermutation | packages/shared/src/utils/region-selection.ts:19-58 | after any operations the track is a permutation of its regions |
| Timeline.MoveLands | packages/shared/src/utils/region-selection.ts:39-54 | a move lands at its target, clamped to the track and counted from the end when negative, and keeps the order of all others |
| Timeline.LastResizeWins | packages/shared/src/utils/region-selection.ts:30-37 | each region ends with the range of its last resize, whatever was moved |
| Timeline.BuildRegionLayoutRanges | packages/shared/src/utils/region-selection.ts:60-80 | the cursor loop computes the layout function |
| Timeline.LayoutIsDisjoint | packages/shared/src/utils/region-selection.ts:60-113 | intervals follow one another from zero, 60 ms apart, as long as their region but at least 100 ms, and a position is found in a region exactly when it lies in that region's interval |
| Selection.AcceptedRangeFits | packages/shared/src/utils/region-selection.ts:252-316 | an accepted delete range lies inside its region and is at least 100 ms long |
| Selection.DeleteAgreesWithSource | packages/shared/src/utils/region-selection.ts:186-316 | delete and source resolution coincide; the later edge checks never fire |
| Selection.EditorResolutionsFit | packages/shared/src/utils/region-selection.ts:230-335 | the same in the editor after any operations; a selection lacks a layout exactly when its region is not on the track |
| Selection.SelectionIsUndirected | packages/shared/src/utils/region-selection.ts:259-262 | the drag direction of a selection does not matter |
| Selection.ResolvesExactly | packages/shared/src/utils/region-selection.ts:186-228 | what a selection resolves to: refused when less than 100 ms of the interval or of the source is left, the whole region when both ends come within 100 ms of its ends, else the range between its ends |
| Selection.MapsToNearest | packages/shared/src/utils/region-selection.ts:115-126 | a layout position maps to the millisecond nearest to its source position on the straight line through both ends |

## Left out

- Database, queue and HTTP mechanics: a transaction is one atomic step, a conditional update is an `if` on the row, a job retry is another execution; the per-user advisory lock is what makes the credit transactions atomic.
- 32-bit columns and IEEE-754: units, minor units and milliseconds are unbounded integers, timeline positions and ratios are reals, and the `1e-9` tolerances in the Flitt comparisons are dropped because the compared values are integers.
- Key trimming, reasons, timestamps other than creation times, log lines and error texts; the two delete and select errors that differ only in wording are one refusal.
- Clawback keys are a constructor of their own: client keys that spell one out are not part of this model.
- The purchase's status and provider status after a refund, and the check of the provider and currency at approval; the refundable amount is read in the approval's own transaction here, while the API reads it just before.
- `Entry.source`, `Lot.debited` and `Lot.forfeited` are history the tables do not store; no guard reads them.
- FlittSafety.RefundedNeverExceedsReversal: the provider shows `reversed` only when the whole charge is reversed, as packages/flitt-checkout/src/flitt-status.ts:32 documents; requests are approved in some order and never return to a counted status.
- FlittConvergence.TwoPassesSettleEverything: its executions follow one another and are not interrupted; what came before them may have been anything.
- TbcRefund.CancelledAtMostOnce: executions of one request follow one another, as the queue's job identity arranges; `TbcOverlap` is about two at once.
- SubmitOnce.AtMostOnePossiblyAccepted: a definite rejection is taken to be true of the vendor; an ambiguous reply may hide either outcome, at any later time.
- SubmitOnce.SubmittedTaskIsStable: each vendor's records are a model of their own; the Suno reconciler, which does not filter by provider, is not applied to Mureka records.
- Credits refunded by a failed generation: the submit machine does not carry the ledger, because a worker refunds even when its own status update matched no row; repeating that refund is covered by `CreditTotals.OneRefundRowForGood`.
- Vocal cloning, stem separation, lyrics, track persistence, account deletion and the admin requeue services.
- Split positions inside a region: their guards are their whole contract.
- Checkout, signatures, URL checks, storage, moderation, plans, prompts and all user interfaces.
