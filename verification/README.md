# Govmind: payment orders, token distribution, SNS cache and codecs

A Dafny model of the parts of Govmind that carry state, a loop or arithmetic,
with properties over every run or every input:

- **Payment orders** (`PaymentOrders`, `HubHandlers`, `HubCanister`, `Ledger`, `HubRuns`, `HubSafety`, `HubProgress`, `OrderPages`).
  The hub canister's handlers read a copy of an order, await the token ledger, and write the copy
  back. Each handler is cut at its awaits. `HubCanister.Hub` holds the cells and its methods equal
  the functions of `HubHandlers`; `HubRuns` interleaves those stretches with ledger answers, deposits,
  new orders, traps and upgrades. Calls on different orders interleave freely, calls on one order do
  not overlap. The ledger is one log of credits, balance readings and transfers, so "what came in
  since the last reading" is a number and every balance claim below is an equation.
- **Token distribution** (`Distribution`, `TokenTimer`, `DistributionRuns`). `TokenTimer.Timer` is the timer's
  shared model with the history it writes; a tick equals `TickModel` and records a plan, in whatever
  order the recipient table is iterated. The lock machine in `DistributionRuns` lets ticks fire and
  transfers be answered in any order.
- **SNS cache** (`SnsTypes`, `SnsCache`, `SnsRuns`, `SnsPages`). The two ordered maps, range scans on the
  composite key, cached counts, the paged listings, chunked export and import.
- **Amounts, 256-bit integers and hex strings** (`Units`, `Nat256Bytes`, `HexStrings`), over one theory of
  positional numerals (`Numerals`).
- **Subscription time** (`Subscription`) and the **cleanup of AI answers** (`AnswerCleanup`).

Machine integers wrap where the code lets a caller reach the edge: `u64` in times, and `u32`/`usize`
(32 bits on wasm32) in paging. `Numerals.Times`, `Quotient` and `Remainder` are multiplication and
division written as repeated addition and subtraction, which keeps the proofs linear;
`TimesIsProduct` and `DivisionAgrees` prove them equal to `*`, `/` and `%`.

## What the proofs found

- An unshared Paid order is backed by its subaccount, except between the ledger's execution of a
  retried share and the canister hearing of it. After a failed share the order is stored as Paid
  without a shared time, so during the next try the record still says "unshared" when the money has
  gone. `HubSafety.BrieflyNotBacked` is such a run; `BackedExactlyWhen` gives the exact condition.
- Upgrade arguments are applied to the heap copy only. The next call that loads the stable copy drops
  them, unless they change nothing (`UpgradeArgumentsAreLost`).
- `limit_orders` is right for every list exactly when `page * size` is below 2^32 (`PageRightIff`), and
  the next-page flag of the SNS listing exactly when the page ends within 32 bits (`NextPageRightIff`).
- Buying a Permanent subscription twice wraps: the new expiry lies before the old one
  (`PermanentTwice`). The one-formula law holds exactly when its result fits in u64 (`OneFormula`).
- An unlock item is never paid early exactly when its time in nanoseconds fits in u64
  (`NeverEarlyIff`), and likewise for the emission period (`PeriodRightIff`).
- The answer cleanup is idempotent on every answer with braces, but not on brace-free text with a
  fence inside a fence (`CleanupIdempotent` has the exact condition on the raw text, `NestedFences` an input).
- Cached counts can exceed the true ones: `add_sns_canister` and `import_canisters` store the caller's
  counts (`AddBreaksBound`), and `import_proposals` may close an open proposal without telling its
  canister (`ClosingImportBreaksBound`). `BoundKeptIff` says exactly which calls keep the bound, and
  `BoundedThroughoutIff` in which runs it holds.
- A chunk limit of 0 never advances (`ZeroLimitNeverAdvances`).
- The share of a CKBTC order traps, because the default account id is too long for a principal; no
  such order is created by the present calls.

## Model

| member | source | states |
|---|---|---|
| HubRuns.RunsAreGood | src/ic_govmind_hub/src/store.rs:338-636 | every run keeps the invariant tying each stored order, each call in flight, each transfer and both copies of the counters together |
| HubRuns.NextKeepsGood | src/ic_govmind_hub/src/store.rs:450-636 | each single event keeps that invariant: create, start, ledger answer, resume, trap, deposit, upgrade |
| HubRuns.ConfirmGood | src/ic_govmind_hub/src/store.rs:450-477 | started on a resting order, confirm changes that order only, in an allowed way, and answers Ok exactly if it leaves it Paid |
| HubRuns.RefundGood | src/ic_govmind_hub/src/store.rs:479-509 | the same for refund, which answers Ok exactly if it turns the order into Refunded |
| HubRuns.ResumeGood | src/ic_govmind_hub/src/store.rs:511-636 | the same for every stretch after an await, given what the ledger's answer is known to mean |
| HubSafety.PaidOrdersAreBacked | src/ic_govmind_hub/src/store.rs:511-594 | an unshared Paid order has `amount_paid` at least the price and above 0; its subaccount holds exactly that plus what came in since, but for a share not heard of yet |
| HubSafety.BackedExactlyWhen | src/ic_govmind_hub/src/store.rs:450-477 | in every run such an order is backed if and only if no done share is unheard of, or later deposits make up for it |
| HubSafety.BrieflyNotBacked | src/ic_govmind_hub/src/store.rs:558-594 | a run from the creation call on in which an unshared Paid order of 100000000 has 90000 on its subaccount |
| HubSafety.AtMostOneTransferOut | src/ic_govmind_hub/src/store.rs:558-636 | in every run at most one transfer ever leaves an order's subaccount, share or refund |
| HubSafety.RecordsMatchLedger | src/ic_govmind_hub/src/store.rs:558-636 | with no call in flight, money has left exactly for Refunded orders and shares above the base fee; a share leaves `DAO_BASE_FEE - fee`, a refund 0, plus later deposits |
| HubSafety.TransferAmounts | src/ic_govmind_hub/src/store.rs:568-627 | every transfer, when made, takes all of the balance last read but the base fee (share, to the treasury) or but the transfer fee (refund) |
| HubSafety.OrdersEvolve | src/ic_govmind_hub/src/store.rs:511-636 | from any point of a run on: id, payer, price and token stay; Paid and Refunded are never left, TimedOut goes only to Refunded; Verifying and Cancelled are never stored; a share time is set once |
| HubSafety.IdsAreDense | src/ic_govmind_hub/src/api_update.rs:178-203 | the stored ids are exactly 0 to `next_order_id - 1`, each order carries its key, `total_orders` is their number, and both copies of the counters agree |
| HubSafety.CreateIsFresh | src/ic_govmind_hub/src/api_update.rs:183-200 | after any run, upgrades included, a new order gets an unused id and disturbs no order |
| HubSafety.UpgradeArgumentsAreLost | src/ic_govmind_hub/src/api_init.rs:60-83 | upgrade arguments survive the next order creation exactly if they change nothing |
| HubSafety.InviteCodeAdds | src/ic_govmind_hub/src/api_update.rs:218-224 | after any run a new code is added, in both copies, while there are fewer than 500 |
| HubSafety.InviteCodesStay | src/ic_govmind_hub/src/store.rs:162-177 | in every run codes are never lost, repeated or more than 500, whatever upgrades and reloads come between |
| HubProgress.OnlyThePayerRefunds | src/ic_govmind_hub/src/store.rs:478-493 | in every run a refund call by anyone but the payer, or on a missing order, changes nothing and says why |
| HubProgress.RefundsWereAsked | src/ic_govmind_hub/src/store.rs:478-505 | in every run each refund in the log left the subaccount of an order whose payer had called for it, and went where that call said |
| HubProgress.RefundGoesThrough | src/ic_govmind_hub/src/store.rs:478-634 | an Unpaid or TimedOut order of positive amount that holds the fee is Refunded once balance and transfer are answered, whatever events of other orders come between; all but the fee goes to the stated destination |
| HubProgress.RefundStarts | src/ic_govmind_hub/src/store.rs:596-613 | what a refund call does to an order of each status, token and caller, up to its first await |
| HubProgress.RefundBalanceResumed | src/ic_govmind_hub/src/store.rs:613-624 | below 10000 (ICP) or 10 (CKBTC) the refund ends, else all but that is asked for |
| HubProgress.EnoughIsPaid | src/ic_govmind_hub/src/store.rs:538-554 | in every run a confirm call that has read balance b makes the order Paid, or has it wait for its share, if and only if b is positive and reaches the price, and the share would not trap |
| HubProgress.TimedOutIff | src/ic_govmind_hub/src/store.rs:522-529 | in every run confirming an Unpaid order stores TimedOut if and only if more than 900000000000 ns have passed since its creation |
| HubProgress.VerifyResumed | src/ic_govmind_hub/src/store.rs:538-583 | the stored order, the next question and the answer after the balance, in plain arithmetic |
| HubProgress.ConfirmOtherwise | src/ic_govmind_hub/src/store.rs:450-520 | confirming an order that is missing or not Unpaid: only an unshared Paid one is touched |
| HubProgress.ConfirmGoesThrough | src/ic_govmind_hub/src/store.rs:450-594 | an ICP order in time that holds its price and more than the base fee is Paid and shared once balance and transfer are answered, whatever events of other orders come between |
| HubProgress.BalanceIsRead | src/ic_govmind_hub/src/store.rs:531-538 | the balance a call is told is that of the subaccount of its own payer and id, and never negative |
| HubProgress.TransferIsFunded | src/ic_govmind_hub/src/store.rs:558-627 | the money a call wants to transfer is always there, the fee of 10000 or 10 included; shares go to the treasury, refunds to the stated destination |
| HubCanister.Hub.constructor | src/ic_govmind_hub/src/api_init.rs:30-53 | both copies of the state start equal, with no orders |
| HubCanister.Hub.Load | src/ic_govmind_hub/src/store.rs:143-150 | the heap copy becomes the stable one |
| HubCanister.Hub.Save | src/ic_govmind_hub/src/store.rs:152-159 | the stable copy becomes the heap one |
| HubCanister.Hub.StoreNewOrder | src/ic_govmind_hub/src/store.rs:367-405 | stores an unpaid order with its payment type under the id and tells its subaccount |
| HubCanister.Hub.CreatePaymentOrder | src/ic_govmind_hub/src/api_update.rs:178-203 | the cells become those of `CreateOrder`; the answer names the allocated id and its subaccount |
| HubCanister.Hub.AddInviteCode | src/ic_govmind_hub/src/api_update.rs:218-224 | the other load-change-save call: Ok exactly if the code is then in stable storage, which an error leaves alone |
| HubCanister.Hub.UpgradeCanister | src/ic_govmind_hub/src/api_init.rs:55-90 | save, load, then arguments on the heap copy |
| HubCanister.Hub.ConfirmPaymentOrder | src/ic_govmind_hub/src/store.rs:450-477 | up to its first await, its end or its trap the handler equals `Confirm`, about which the run lemmas are proved |
| HubCanister.Hub.ResumeVerify | src/ic_govmind_hub/src/store.rs:531-583 | the stretch after the balance answer, including the start of the share, which traps for CKBTC |
| HubCanister.Hub.ResumeShare | src/ic_govmind_hub/src/store.rs:583-593 | the stretch after the share's answer and the write-back |
| HubCanister.Hub.RefundPaymentOrder | src/ic_govmind_hub/src/store.rs:479-509 | missing order, wrong caller and ineligible order fail; otherwise the handler waits for the balance |
| HubCanister.Hub.ResumeRefundBalance | src/ic_govmind_hub/src/store.rs:616-624 | records the balance; too small a balance is written back and fails |
| HubCanister.Hub.ResumeRefundTransfer | src/ic_govmind_hub/src/store.rs:624-634 | Refunded exactly if the transfer went through, then written back |
| OrderPages.LimitOrders | src/ic_govmind_hub/src/store.rs:407-448 | total, has-more flag and data are those of the requested window on the caller's orders, each shown with the subaccount of its own payer and id |
| OrderPages.CheckPageSize | src/ic_govmind_hub/src/utils.rs:42-46 | page 0 means 1, and a size outside 1 to 100 means 10 |
| OrderPages.CollectPage | src/ic_govmind_hub/src/store.rs:426-441 | the loop counts all of the caller's orders and keeps those inside the window |
| OrderPages.PageAnswered | src/ic_govmind_hub/src/store.rs:407-448 | a page ending within 32 bits is the slice of `size` orders from `(page - 1) * size`, and has-more means the next page is not empty |
| OrderPages.PageRightIff | src/ic_govmind_hub/src/store.rs:409-410 | the answer is right for every list if and only if `page * size` is below 2^32 |
| OrderPages.AllPages | src/ic_govmind_hub/src/store.rs:407-448 | pages 1 to the page count concatenate to the caller's whole list |
| OrderPages.ExactlyTheCallers | src/ic_govmind_hub/src/store.rs:426-431 | the list that is paged holds exactly the caller's stored orders |
| OrderPages.ShownInOrder | src/ic_govmind_hub/src/store.rs:414-424 | by strictly rising or strictly falling id, so none appears twice |
| DistributionRuns.OverlapIsHarmless | src/ic_govmind_backend/src/timer.rs:67-76 | whatever ticks fire while one awaits its transfers, model and history are those of whole ticks one after the other, plus the done part of the running one |
| DistributionRuns.LedgerEquation | src/ic_govmind_backend/src/timer.rs:67-191 | over any run the recorded amounts sum to the initial table if paid in the run, plus emissions x recipients x rate, plus the unlocked amounts |
| DistributionRuns.LedgerAtAnyMoment | src/ic_govmind_backend/src/timer.rs:17-31 | the equation holds at every moment of every interleaving of firing ticks and transfer answers, up to the records of the running tick |
| DistributionRuns.FreshLedgerEquation | src/ic_govmind_backend/src/timer.rs:67-191 | the same for a fresh model, with ordinary products |
| DistributionRuns.PayoutTotal | src/ic_govmind_backend/src/timer.rs:144-150 | the total of a payout is the table's sum in whatever order the map is iterated |
| DistributionRuns.ItemExecuted | src/ic_govmind_backend/src/timer.rs:114-134 | for any clock, an item is executed if and only if it was at the start or some tick reached its time |
| DistributionRuns.ItemExecutedByLastTick | src/ic_govmind_backend/src/timer.rs:114-134 | with a clock that does not run backwards, if and only if it started executed or the last tick reached its time |
| DistributionRuns.ItemPaidOnce | src/ic_govmind_backend/src/timer.rs:117-131 | an item comes to its turn in exactly one tick if the run executes it, and in none otherwise |
| DistributionRuns.PaidIsRecorded | src/ic_govmind_backend/src/timer.rs:117-131 | that tick records the payment of its amount to its address |
| DistributionRuns.ScheduledPaymentsMatch | src/ic_govmind_backend/src/timer.rs:114-191 | over any run the multiset of recorded scheduled payments is exactly one payment for each item that went from unexecuted to executed |
| DistributionRuns.NeverEarlyIff | src/ic_govmind_backend/src/timer.rs:116-117 | an item is never due before its time if and only if that time in nanoseconds fits in u64 |
| DistributionRuns.EmissionGaps | src/ic_govmind_backend/src/timer.rs:91-112 | successive emissions, and the first one after an earlier run, are at least a period apart |
| DistributionRuns.EmissionRateIsLimited | src/ic_govmind_backend/src/timer.rs:91-112 | E emissions span at least E - 1 periods |
| DistributionRuns.EmissionAtTick | src/ic_govmind_backend/src/timer.rs:91-112 | each tick of a run records one payment of the rate to each address if a rate is set and there was no emission yet or a period has passed, and no emission otherwise; it notes the time exactly then |
| DistributionRuns.EmissionsKeepUp | src/ic_govmind_backend/src/timer.rs:91-112 | with a rate set the first tick emits; with ticks at most g apart successive emissions are at most a period plus g apart, and none is ever overdue after a tick |
| DistributionRuns.InitialAtTick | src/ic_govmind_backend/src/timer.rs:78-89 | the first tick of a fresh model pays each address of a non-empty table its amount, and no other tick does |
| DistributionRuns.PeriodRightIff | src/ic_govmind_backend/src/timer.rs:93-94 | the period used is the configured one if and only if it fits in u64 nanoseconds |
| TokenTimer.Timer.constructor | src/ic_govmind_backend/src/timer.rs:17-31 | the timer starts from its own copy of the model, beside the id counters and the history that are there |
| TokenTimer.Timer.GetNextId | src/ic_govmind_backend/src/store.rs:60-66 | hands out the counter, starting at 1, and advances that counter only |
| TokenTimer.Timer.AddDistributionRecord | src/ic_govmind_backend/src/store.rs:450-460 | the record goes under a fresh id, at the end of the history; ids stay without gaps |
| TokenTimer.Timer.DistributeToAll | src/ic_govmind_backend/src/timer.rs:137-191 | one payment and one record for every address of the table, each once, in any order |
| TokenTimer.Timer.RunSchedule | src/ic_govmind_backend/src/timer.rs:114-134 | every due item is paid in schedule order and marked, no other item changes |
| TokenTimer.Timer.RunInitial | src/ic_govmind_backend/src/timer.rs:78-89 | the initial table is paid when not yet executed and not empty, and the time noted |
| TokenTimer.Timer.RunEmission | src/ic_govmind_backend/src/timer.rs:91-112 | the rate is paid to every address when a period has passed, and the time noted |
| TokenTimer.Timer.DistributeTokens | src/ic_govmind_backend/src/timer.rs:67-135 | one tick pays a plan for the old model, appends exactly its records, and moves the model to `TickModel` |
| SnsCache.RangeIsFilter | src/ic_govmind_sns/src/lib.rs:344-361 | the range from (c, 0) to (c, u64::MAX) holds exactly the entries of canister c, by strictly ascending proposal id |
| SnsTypes.KeyLeIsTotal | src/ic_govmind_sns/src/lib.rs:249-260 | the derived lexicographic order on composite keys is a total order |
| SnsCache.CountsAreFilterCounts | src/ic_govmind_sns/src/lib.rs:372-394 | both range-scan counts equal those of a plain filter over the whole map |
| SnsCache.RangeRemovalIsExact | src/ic_govmind_sns/src/lib.rs:813-830 | deleting the keys of a canister's range deletes its entries and no others |
| SnsCache.ScanIsLookup | src/ic_govmind_sns/src/lib.rs:515-520 | the linear scan by id equals a keyed lookup when the map is keyed by canister id |
| SnsCache.StoredExactly | src/ic_govmind_sns/src/lib.rs:582-589 | fetched proposals are stored over what was there under their composite keys, and nothing else changes |
| SnsCache.SnsCanisterStore.GetProposalsForCanister | src/ic_govmind_sns/src/lib.rs:344-361 | the collecting loop returns the values of the canister's range |
| SnsCache.SnsCanisterStore.GetSnsCanister | src/ic_govmind_sns/src/lib.rs:509-527 | the scan's result with its two errors |
| SnsCache.SnsCanisterStore.FetchSnsProposalsBegin | src/ic_govmind_sns/src/lib.rs:545-559 | goes ahead exactly for a well-formed id that is in the list |
| SnsCache.SnsCanisterStore.FetchSnsProposalsEnd | src/ic_govmind_sns/src/lib.rs:578-608 | stores what was fetched and refreshes the cached numbers of a canister that is still there |
| SnsCache.SnsCanisterStore.RefreshAfterRoot | src/ic_govmind_sns/src/lib.rs:641-648 | a full refresh clears both maps |
| SnsCache.SnsCanisterStore.RefreshAfterMetadata | src/ic_govmind_sns/src/lib.rs:704-768 | stores a canister for every answer, and fails exactly when there was none |
| SnsCache.SnsCanisterStore.AddSnsCanister | src/ic_govmind_sns/src/lib.rs:771-793 | adds a new canister, or fails and changes nothing |
| SnsCache.SnsCanisterStore.RemoveSnsCanister | src/ic_govmind_sns/src/lib.rs:796-836 | removes the canister and exactly its own proposals, or fails and changes nothing |
| SnsCache.SnsCanisterStore.ImportCanisters | src/ic_govmind_sns/src/lib.rs:936-947 | inserts every listed canister under its id, later ones over earlier |
| SnsCache.SnsCanisterStore.ImportProposals | src/ic_govmind_sns/src/lib.rs:949-960 | inserts every listed entry under its key |
| SnsRuns.ReachableIsKeyed | src/ic_govmind_sns/src/lib.rs:545-836 | in every run of all calls the canister map is keyed by canister id |
| SnsRuns.ReachableScanIsLookup | src/ic_govmind_sns/src/lib.rs:509-527 | so in every run the scan of `get_sns_canister` is a lookup |
| SnsRuns.FullRefresh | src/ic_govmind_sns/src/lib.rs:627-737 | after a full refresh there are no proposals, and the canisters are exactly those that answered, each described by its last answer |
| SnsRuns.IncrementalRefresh | src/ic_govmind_sns/src/lib.rs:627-737 | an incremental refresh keeps all proposals and every canister that did not answer, and describes each that did by its last answer |
| SnsRuns.FetchTouchesOnly | src/ic_govmind_sns/src/lib.rs:591-606 | a fetch stores its proposals even if its canister is gone, and changes of its canister only the counts and the last activity, which is the latest execution fetched or now, and no other canister |
| SnsRuns.AddsOrRefuses | src/ic_govmind_sns/src/lib.rs:771-793 | an id without a dash, or a known one, is refused; any other canister is added |
| SnsRuns.RemovesOrRefuses | src/ic_govmind_sns/src/lib.rs:796-836 | an unknown id is refused; else exactly the canister and its proposals go |
| SnsRuns.FetchMakesCountsExact | src/ic_govmind_sns/src/lib.rs:591-606 | from any cache, a fetch that still finds its canister makes both counts the true ones |
| SnsRuns.CountsInRuns | src/ic_govmind_sns/src/lib.rs:545-836 | in every interleaved run of refresh, fetch and remove the cached counts are exact or both still 0 |
| SnsRuns.BoundKeptIff | src/ic_govmind_sns/src/lib.rs:545-960 | from a bounded cache an event of any call keeps the cached counts within the true ones if and only if it is admissible: an added or lastingly imported canister carries counts within the proposal map, and imported proposals close no more than a count can spare |
| SnsRuns.BoundedThroughoutIff | src/ic_govmind_sns/src/lib.rs:545-960 | in any run of all calls the bound holds throughout if and only if every event is admissible |
| SnsRuns.CountsNeverExceed | src/ic_govmind_sns/src/lib.rs:545-960 | so in every run with admissible adds and imports the counts never exceed the true ones |
| SnsRuns.CountsOnlyIsAdmissible | src/ic_govmind_sns/src/lib.rs:545-836 | which covers every run of refresh, fetch and remove |
| SnsRuns.AddKeepsBoundIff | src/ic_govmind_sns/src/lib.rs:771-793 | adding a canister keeps the bound if and only if the call fails or its counts are within the proposal map |
| SnsRuns.ImportKeepsBoundIff | src/ic_govmind_sns/src/lib.rs:936-947 | importing canisters keeps it if and only if the last entry of each id is within the proposal map |
| SnsRuns.ImportMovesCounts | src/ic_govmind_sns/src/lib.rs:949-960 | importing proposals never lowers a total count, and moves the open count by exactly the proposals it opens and closes |
| SnsRuns.ProposalsKeepBoundIff | src/ic_govmind_sns/src/lib.rs:949-960 | importing proposals keeps the bound if and only if no stored canister loses more open proposals than its count can spare |
| SnsRuns.AddBreaksBound | src/ic_govmind_sns/src/lib.rs:771-793 | one added, or imported, canister with a positive count breaks the bound on an empty cache |
| SnsRuns.ClosingImportBreaksBound | src/ic_govmind_sns/src/lib.rs:949-960 | importing a closed proposal over a fetched open one breaks it too |
| SnsPages.GetSnsCanisters | src/ic_govmind_sns/src/lib.rs:449-505 | defaults, limit check, sorting and the page equal `PageAnswer` on the sorted list |
| SnsPages.ListingIsSorted | src/ic_govmind_sns/src/lib.rs:468-475 | every stored canister once, by lower-cased name and then by id |
| SnsPages.FollowAll | src/ic_govmind_sns/src/lib.rs:477-502 | following `next_page_offset` from 0 takes max(1, total pages) calls and yields the whole list |
| SnsPages.FollowedPage | src/ic_govmind_sns/src/lib.rs:477-502 | the page after k steps starts at `k * limit`, is numbered k + 1, and points back to the page before it |
| SnsPages.PageInfoTells | src/ic_govmind_sns/src/lib.rs:477-498 | the page record in plain terms: total, number of pages, next page exactly if it is not empty, previous page exactly if not at the start |
| SnsPages.NextPageRightIff | src/ic_govmind_sns/src/lib.rs:482-484 | the next-page flag is right for every total if and only if the page ends within 32 bits |
| SnsPages.BadLimit | src/ic_govmind_sns/src/lib.rs:455-466 | a limit outside 1 to 10 is answered with nothing |
| SnsPages.ChunksJoin | src/ic_govmind_sns/src/lib.rs:871-934 | stepping by the clamped chunk size while `has_more` ends, and the chunks concatenate to the list |
| SnsPages.ChunkIsSlice | src/ic_govmind_sns/src/lib.rs:871-934 | a chunk is the slice of at most 20 canisters or 50 proposals at its offset, and has-more means something is left after it |
| SnsPages.CanistersRoundTrip | src/ic_govmind_sns/src/lib.rs:871-947 | importing the exported chunks into an empty store gives the canister map back, for every limit from 1 |
| SnsPages.ProposalsRoundTrip | src/ic_govmind_sns/src/lib.rs:904-960 | the same for the proposal map |
| SnsPages.ZeroLimitNeverAdvances | src/ic_govmind_sns/src/lib.rs:890-901 | with limit 0 there is always more and the next offset is the same one |
| Units.ParseOfPrint | src/ic_govmind_frontend/src/utils/units.js:11-49 | printing with k fraction digits and parsing gives n less the remainder of n by 10^(d - min(d, k)): truncation toward zero |
| Units.RoundTripExactly | src/ic_govmind_frontend/src/utils/units.js:11-49 | the round trip is exact if and only if that remainder is 0 |
| Units.RoundTripAllDigits | src/ic_govmind_frontend/src/utils/units.js:34-49 | it is exact whenever k is at least d |
| Units.RemainderIsModulus | src/ic_govmind_frontend/src/utils/units.js:38-40 | the remainder meant above is n modulo a power of ten |
| Units.DottedAmount | src/ic_govmind_frontend/src/utils/units.js:11-24 | the text w.f means w tokens and f / 10^length(f), or is too precise; an empty w counts as 0 |
| Units.WholeAmount | src/ic_govmind_frontend/src/utils/units.js:11-24 | a text of digits means that many tokens |
| Units.AnyDotted | src/ic_govmind_frontend/src/utils/units.js:11-24 | any text with one point: refused for a non-digit before the point or too many digits after it, other characters after the point dropped |
| Units.AnyWhole | src/ic_govmind_frontend/src/utils/units.js:11-24 | any text without a point is a number of tokens or refused |
| Units.OtherTexts | src/ic_govmind_frontend/src/utils/units.js:11-16 | white space alone is no amount, two points are an invalid one, white space around an amount does not matter |
| Units.PrintedPieces | src/ic_govmind_frontend/src/utils/units.js:34-49 | the printed text has a whole part without leading zeros and exactly min(d, k) digits of fraction, which are the leading ones |
| Nat256Bytes.TryFromExactly | src/evm_rpc_types/src/lib.rs:91-101 | the byte-length test accepts exactly the numbers below 2^256 |
| Nat256Bytes.IntoBeBytes | src/evm_rpc_types/src/lib.rs:54-64 | the length assertion never fails and the 32-byte buffer holds the value, big-endian |
| Nat256Bytes.BytesOfNumber | src/evm_rpc_types/src/lib.rs:54-69 | number to bytes and back is the identity |
| Nat256Bytes.NumberOfBytes | src/evm_rpc_types/src/lib.rs:54-69 | bytes to number and back is the identity, and `from_be_bytes` never fails |
| HexStrings.ParseOfPrint | src/evm_rpc_types/src/lib.rs:127-183 | for every hex type, parsing a printed value gives it back |
| HexStrings.PrintOfParse | src/evm_rpc_types/src/lib.rs:172-183 | the accepted texts, exactly (2N digits, or one digit for a byte); printing a full-length one back lowers its case and nothing else |
| HexStrings.OneDigitMeans | src/evm_rpc_types/src/lib.rs:244-254 | a single digit means its zero-padded form |
| HexStrings.DigitTable | src/evm_rpc_types/src/lib.rs:127-183 | the sixteen digits and their values, in both cases |
| HexStrings.RefusedBecause | src/evm_rpc_types/src/lib.rs:172-183 | which error a refused text gives: prefix, odd length, wrong length, or a character |
| HexStrings.EncodeKeepsValue | src/evm_rpc_types/src/lib.rs:127-132 | the digits read in base 16 and the bytes read in base 256 are the same number |
| Subscription.OneFormula | src/ic_govmind_types/src/payment.rs:132-156 | all three branches give max(old expiry, now) + bought time, if and only if that fits in u64 |
| Subscription.HistoryExpiry | src/ic_govmind_types/src/payment.rs:132-156 | folded over any purchase history, the stored expiry is the unbounded one if and only if that fits, and a Free one is never past the last purchase |
| Subscription.IdealIsMaximum | src/ic_govmind_types/src/payment.rs:132-146 | that expiry in closed form: the maximum over all points where the old time may have run out |
| Subscription.ExpiryNeverDecreases | src/ic_govmind_types/src/payment.rs:132-146 | more purchases never shorten the term |
| Subscription.TierIsBestSinceLapse | src/ic_govmind_types/src/payment.rs:93-99 | the tier is the greatest one bought since the subscription last ran out |
| Subscription.PermanentTwice | src/ic_govmind_types/src/payment.rs:81-91 | buying Permanent a second time moves the expiry back |
| Subscription.Durations | src/ic_govmind_types/src/payment.rs:81-91 | the durations in nanoseconds |
| Subscription.TierIsDuration | src/ic_govmind_types/src/payment.rs:69-99 | a greater tier is a longer one, so the better of two types is the longer one |
| Subscription.Subscriber.constructor | src/ic_govmind_types/src/payment.rs:148-156 | a purchase expires its duration after now |
| Subscription.Subscriber.UpdateSubscription | src/ic_govmind_types/src/payment.rs:132-146 | the two fields become those of `Updated`, which the formula is about |
| AnswerCleanup.CleanContent | src/ic_govmind_api_proxy/server.js:498-515 | the step-by-step cleanup gives the raw text from its first '{' to its last '}' whenever they are in that order, else the trimmed text without its fence |
| AnswerCleanup.CutKeepsBraces | src/ic_govmind_api_proxy/server.js:502-507 | cutting brace-free ends off a text changes neither whether it has braces nor the text between them |
| AnswerCleanup.WrappingIsUndone | src/ic_govmind_api_proxy/server.js:498-515 | a braced text comes back from any fence or prose around it that has no '{' before and no '}' after it |
| AnswerCleanup.CleanupIdempotent | src/ic_govmind_api_proxy/server.js:498-515 | a second cleanup changes nothing if and only if the answer had braces or its trimmed text does not open with one fence directly inside another |
| AnswerCleanup.NestedFences | src/ic_govmind_api_proxy/server.js:502-507 | a brace-free answer that a second cleanup changes |
| AnswerCleanup.FencedTextIsFreed | src/ic_govmind_api_proxy/server.js:498-507 | a brace-free text in a plain or json fence, with any white space around and inside, comes back as it is |
| AnswerCleanup.PlainTextIsTrimmed | src/ic_govmind_api_proxy/server.js:498-507 | an answer without braces or opening fence is only trimmed |

## Left out

- Overlapping confirm and refund calls on one order; the runs make the second call a no-op.
- Ledgers, EVM RPC, the management canister and HTTP: they appear only as arbitrary answers. A transfer that answers with an error is taken to have moved nothing, and a balance that cannot be read counts as 0, as the wrappers in pay.rs return it.
- The byte encoding of accounts: a subaccount is the pair of payer and order id, which makes the hash of utils.rs injective by construction and never the default account. A refund destination that does not decode fails like any other transfer or traps.
- The owner's `canister_transfer` spends only the default account, which no order property is about.
- User, invite-code batch and status calls of the hub.
- u64 overflow of `created_time` plus 15 minutes and of the order and record counters, which no caller can reach.
- Upgrades happen with no call in flight, as for a stopped canister.
- One timer lifetime: the timer works on its own copy of the model, so progress across canister upgrades and several timers are not modelled; neither is a trap in the middle of a tick.
- `list_distribution_records` and `peek_next_id`, which only read.
- `convert_proposal`: fetched proposals are taken as already converted. Fetch answers may arrive in any state, which includes every real interleaving.
- `to_lowercase` is an arbitrary function of the name.
- Success and error texts are counts and error values.
- Following pages and stepping through chunks assume fewer entries than 2^32 less one page or chunk; all entries are collected in 32-bit memory before they are cut.
- `fromUnits` on negative or missing balances, and values that are not text; JSON parsing and the defaults the parsers fill in.
- Hashing, signing, address derivation, ABI, Candid and CBOR encodings, committee and chain lists, and everything in floating point.
