# Verified model of the billing, purge, lease, provider and rollout logic

A Dafny 4.11 model of the stateful core of the Qatth backend, with proofs of the
properties it is built for. `dafny verify dfyconfig.toml` checks the project.

## What is modelled

**The bucketed credit ledger** (`product_billing.py`). An account owns credit buckets with
granted, available and reserved credits and an expiry. A reservation holds allocations over
several buckets and goes reserved, captured, refunded, or reserved, released. Payments grant
buckets, reversals take credits back pro rata and turn the shortfall into debt, expiry
empties buckets, administrators adjust balances, some adjustments need a second person, and
an append-only ledger with idempotency keys explains every change.

- `Ledger`, `CreditOps`, `Reversal`, `Billing` define the tables and the operations as
  functions from a state to `Ok(state)` or `Err(error)`. `Billing.Step` takes one committed
  operation at a non-decreasing clock; `Billing.Run` takes any sequence of them. Payment
  events are split into the commits the code makes: received, processing, then applied and
  processed, or failed.
- `LedgerInvariants`, `LedgerMoves`, `CreditLaws`, `BillingLaws` prove the invariant that every
  step keeps; `BillingHistory` what no later step undoes; `CleanRuns` a discipline under which
  the ledger sums to the balance; `Guarantees` states the results for every reachable state;
  `SpendingOutcomes`, `ReserveOutcomes`, `PaymentOutcomes` and `AdjustmentOutcomes` say of each
  operation, from the tables before it, exactly what it changes and which error refuses it,
  with `ReservationRuns` for the facts about references they need;
  `Dropped` says of every operation and every run exactly when ledger and balance drift apart;
  `Witness` holds a concrete run in which plain conservation fails.
- `CreditService` is the same service as a class whose fields are the tables: methods with
  the loops of the code update them in place, roll back on an error, and are proved to take
  exactly one step of the state machine. `CreditLoops` holds their loop lemmas and
  `ServiceGuarantees` reads the run results off an object.

**Around the ledger.** `Inbox`: the payment inbox as a protocol of interleaved, crashing
workers. `PaddleEvents`: webhook and reconciliation events of one transaction. `Catalog`: the
price catalog schedule. `Commands`: idempotent administrative commands, and
`AdjustmentCommands`: the adjustment endpoints as such commands over the billing state machine.
`Paging`: keyset paging of the ledger.

**Independent cores.** `Purge`: the recursive privacy purge over the foreign-key graph.
`SessionLeases`: the live-session lease limiter, map and Redis scripts. `Executor`: bulkhead,
circuit breaker and retries under interleaved callers. `Rollout`: model activation and canary
routing.

## Results that differ from what one would expect

- *The ledger need not sum to the balance.* `_expire_buckets` writes its entry under a key that
  is used at most once per bucket, and `_ledger` silently returns the existing entry for a used
  key. If a reservation held over an expiry is released, the bucket has credits again and the
  next sweep empties it without an entry. The model keeps the dropped entries as ghost items
  (`posted` is false); `LedgerConservation` gives the exact equation. `StepDrops` gives, for every
  operation, the condition on the state before it under which an entry is dropped: it sweeps a
  bucket that was swept before, or takes credits back under the key of an earlier reversal.
  `BalancedIff` follows for runs. `RefillThenSweep` and `UnjournaledRun` show that it happens,
  `CleanRunConserves` names a discipline that prevents it.
- *Processing an event is not exactly once by itself.* A worker that accepted an event never looks
  at the inbox row again. `AgainUnlessSettled` says exactly when an event can be applied again,
  `OverlapAppliesTwice` gives two overlapping deliveries that do, `PromptAtMostOnce` a sufficient
  discipline. Grants are safe without it (`OneGrantPerPeriod`, `RepeatedSuccess`); reversals count
  each time (`ReversalCountsEachTime`), but always with consistent accounts (`ReversalAccounting`).
- *Dropping all later repeats of a command is not always harmless*, because a command that failed
  leaves no row and a later try can succeed. `FirstCallsExact` gives the exact condition,
  `RetryMatters` a run that violates it; `RepeatsCollapse` is what holds always.
- *A listing read page by page* repeats and skips nothing whatever is written meanwhile, but
  equals the initial listing exactly when nothing arrives behind the cursor (`FollowExact`).
- *The map and the Redis lease store differ* in one case: the map lets an expired token that was
  not yet purged be refreshed, Redis evicts the key first. `StepAgrees` gives the condition,
  `RevivalParts` a run that meets it. Each store alone keeps the bound on every run.
- `docs/billing/pricing-and-credits.md` line 208 says that a release of an expired bucket settles
  its expiry in the same transaction, line 228 that the bucket of a refund has an expiry policy.
  The code does neither: the next sweep expires the bucket, and the adjustment bucket never
  expires (`RefundOutcome`, `ReroutedStays`). The model follows the code.

## Model

| member | source | states |
|---|---|---|
| Guarantees.LedgerConservation | backend/app/services/product_billing.py:1235-1255 | in every reachable state an account's ledger sums to its buckets' available plus reserved credits plus the credits whose entry was dropped; each entry's balance_after obeys the same equation at its point; and ledger equals balance if and only if no entry was dropped |
| Guarantees.CleanRunConserves | backend/app/services/product_billing.py:322-338 | on every run in which no release refills an already swept bucket and no reversal event is re-applied, ledger and balance of every account are equal |
| Dropped.StepDrops | backend/app/services/product_billing.py:1235-1255 | a step of any operation never lowers an account's dropped total, and raises it if and only if it commits and either sweeps a bucket of the account that was swept before, or reverses a payment of the account under a used key while the reversal is due credits and the bucket holds some |
| Dropped.RunDrops | backend/app/services/product_billing.py:1235-1255 | over any run from any valid state the dropped total never falls, and stays if and only if no step of the run meets that condition |
| Dropped.BalancedIff | backend/app/services/product_billing.py:1235-1255 | from an empty database, an account's ledger sums to its balance if and only if no step of the run meets that condition |
| Dropped.TakeBackDrops | backend/app/services/product_billing.py:829-854 | taking unspent credits back drops exactly that amount when the event's reversal key was used, and nothing otherwise |
| Dropped.ReleasedAvailable | backend/app/services/product_billing.py:825-830 | after the releases of a reversal, all that its bucket had available or reserved is available |
| Guarantees.SweepExact | backend/app/services/product_billing.py:1249-1255 | a sweep never lowers the dropped total, and leaves it unchanged if and only if no bucket it empties was swept before |
| Guarantees.RefillThenSweep | backend/app/services/product_billing.py:330-336 | releasing into an already swept bucket makes the account's next sweep drop a positive amount |
| Witness.UnjournaledRun | backend/app/services/product_billing.py:322-338 | a run of trial, reservation, sweep, release, sweep ends with balance 0 and a ledger that sums to 4 |
| Guarantees.BucketPartition | backend/app/services/product_billing.py:280-289 | every granted credit of every reachable bucket is available, reserved, captured, rerouted by a refund after expiry, or drained by expiry, reversal or negative adjustment; hence 0 <= available + reserved <= granted |
| Guarantees.ReservationBacking | backend/app/services/product_billing.py:301-306 | a bucket's reserved credits are the allocations of reservations still reserved, allocations sum to the reservation's amount, and capture's corrupt-allocation error never occurs |
| Guarantees.ReservationEntries | backend/app/services/product_billing.py:293-365 | in every reachable state a reservation has no entry while reserved or released, one charge of its amount when captured, and a charge and refund that cancel when refunded, however often calls were repeated |
| Guarantees.HistoryFinal | backend/app/services/product_billing.py:293-365 | no later run removes a ledger entry, changes a reservation's amount or allocations, leaves released or refunded, or changes a decided adjustment |
| Guarantees.ReversalAccounting | backend/app/services/product_billing.py:815-854 | a period's reversed credits are the rounded-up share of its reversed amount, and equal the credits its bucket lost to reversals plus the debt its reversals created |
| Guarantees.DebtAccounting | backend/app/services/product_billing.py:829-850 | an account's debt is the sum of its reviews, and an indebted account is under review |
| Guarantees.DebtBlocksReservations | backend/app/services/product_billing.py:253-255 | while an account has debt, no reserve call adds a reservation |
| Guarantees.ReversalEmptiesHolds | backend/app/services/product_billing.py:824-831 | after a committed reversal the payment's bucket has no reserved credits |
| Guarantees.ReversalCountsEachTime | backend/app/services/product_billing.py:795-823 | every application of a reversal, also a second one under the same event id, raises the period's reversed amount by exactly what its event names, or by the whole payment when it names nothing or zero |
| Guarantees.OneGrantPerPeriod | backend/app/services/product_billing.py:1225-1247 | over every interleaving of deliveries, repeats, retries and reconciliations, two payment grant entries of one billing period are the same entry |
| Guarantees.OneBucketPerPeriod | backend/app/services/product_billing.py:1225-1233 | over every run, a billing period has at most one bucket |
| Guarantees.RepeatedSuccess | backend/app/services/product_billing.py:704-776 | once a period was granted, a success event for it under any event id, also after reversals, changes neither book nor reversal state |
| PaymentOutcomes.FirstSuccess | backend/app/services/product_billing.py:704-776 | the first success event of a period adds one bucket to the payer, with the offer's credits all available: a subscription bucket that expires at the event's end, or thirty days after its start or the clock, with an active subscription row of that period, start and end; or a top-up bucket without expiry. Earlier buckets stay, and the reversal state has the paid amount |
| PaymentOutcomes.SuccessOutcome | backend/app/services/product_billing.py:704-776 | a success event is accepted if and only if its checkout or subscription is known, it pays the offer's exact price, its times are readable, a renewal names its period, and the period was not granted to another account, type or price; each refusal has its error, and acceptance fixes bucket, grant entry, reversal state, subscription, checkout and account; a second payment of the period grants nothing |
| PaymentOutcomes.ReversalOutcome | backend/app/services/product_billing.py:778-854 | a reversal is accepted if and only if its period was granted, the original payment matches, and its amount is positive, within what is left, and not a second review of its event; it counts the amount its event names, or the whole payment; the period's credits rise to the rounded-up share of the new amount, every reservation holding the bucket's credits is released, the bucket keeps what it held minus the smaller of that and the rise, and the account owes exactly the remainder |
| PaymentOutcomes.FinishOutcome | backend/app/services/product_billing.py:517-551 | the last commit of an event leaves the effect of its kind with a processed row, or, when the effect is refused, no change but a failed row |
| PaymentOutcomes.CommitOutcome | backend/app/services/product_billing.py:487-578 | a delivery is refused exactly when another body came under its id before; no commit replaces a stored body or touches another row, and neither delivery nor takeover restarts a processed event |
| Guarantees.GrantStays | backend/app/services/product_billing.py:755-769 | a granted period keeps its reversal state through every later run |
| Guarantees.DualControl | backend/app/services/product_billing.py:991-1121 | an executed adjustment has exactly one ledger entry, of its account and amount, others have none, and one under dual control was decided by someone other than its requester |
| AdjustmentOutcomes.ApproveOutcome | backend/app/services/product_billing.py:1043-1082 | an approval is accepted if and only if the adjustment is pending, the actor is not its requester, and its target has or can have an account and holds what a negative amount takes; it marks the row executed with its approver and carries the amount out: a new bucket without expiry, or what the account's buckets have, oldest first, and one entry |
| AdjustmentOutcomes.RequestOutcome | backend/app/services/product_billing.py:991-1031 | a request of a non-zero amount for a known user waits under dual control, and is otherwise carried out at once or refused for lack of credits |
| AdjustmentOutcomes.RejectOutcome | backend/app/services/product_billing.py:1088-1121 | a rejection by someone other than the requester marks the pending row and changes nothing else |
| AdjustmentOutcomes.CreationShares | backend/app/services/product_billing.py:1147-1153 | a negative adjustment takes from each bucket of the account the smaller of its credits and what the older buckets left to pay |
| BillingLaws.StepKeeps | backend/app/services/product_billing.py:195-1255 | every operation at every later clock keeps the whole billing invariant |
| BillingLaws.RunKeeps | backend/app/services/product_billing.py:195-1255 | every run keeps the billing invariant |
| BillingHistory.RunLater | backend/app/services/product_billing.py:232-365 | along every run buckets keep identity and grant, reservations only move forward, the ledger only grows and decisions stay |
| CleanRuns.CleanRunPosted | backend/app/services/product_billing.py:1249-1255 | on a clean run every ledger entry was really inserted |
| CreditLaws.ReserveOrderCorrect | backend/app/services/product_billing.py:257-263 | the reserve query lists exactly the account's buckets with credits, each once, by type rank, then expiry with none last, then creation |
| CreditLaws.GreedyPrefixOptimal | backend/app/services/product_billing.py:279-290 | for every prefix of the order, the draw takes from it the smaller of the need and what the prefix offers |
| CreditLaws.ReserveCorrect | backend/app/services/product_billing.py:256-291 | reserve is refused exactly when the offer is below the cost; otherwise its allocations sum to the cost, are prefix optimal, and use no bucket expired now nor of another account |
| ReserveOutcomes.ReserveOutcome | backend/app/services/product_billing.py:232-291 | after the trial step, an existing reservation of the same reference answers and nothing is held; else exactly one is added, for this user, reference and cost, reserved until the given time or for two hours; each refusal and their order is exact, the last being that the account's unexpired credits fall short |
| ReserveOutcomes.GreedyPays | backend/app/services/product_billing.py:257-290 | the reservation's cost is paid from unexpired buckets of the account, and none pays while one that is spent earlier has credits left: trial, subscription, top-up, adjustment; then earlier expiry, none last; then older |
| ReserveOutcomes.TrialOutcome | backend/app/services/product_billing.py:148-173 | a verified user gets the enabled policy's trial once: one bucket with its credits that expires after the policy's term, and one grant entry; each refusal is exact |
| ReserveOutcomes.SweepEntries | backend/app/services/product_billing.py:1249-1255 | a sweep enters, oldest first, one expiry of what each expired bucket of the account still had |
| ReserveOutcomes.ViewOutcome | backend/app/services/product_billing.py:195-199 | a view leaves the due trial, the account and its expired buckets emptied, and nothing else |
| ReservationRuns.ReferencesDiffer | backend/app/services/product_billing.py:250-252 | in every reachable state the references of two reservations differ, and a refund entry is in the account of its reservation |
| CreditLaws.ExpireBucketsKeeps | backend/app/services/product_billing.py:1249-1255 | after a sweep no expired bucket of the account has available credits, every other bucket is unchanged, and the ledger invariant holds |
| CreditLaws.CaptureNeverCorrupt | backend/app/services/product_billing.py:301-306 | under the ledger invariant every allocation finds its reserved credits in turn |
| CreditLaws.CaptureBookKeeps | backend/app/services/product_billing.py:293-320 | a committed capture keeps partition, conservation and the journal invariants |
| CreditLaws.ReleaseBookKeeps | backend/app/services/product_billing.py:322-338 | a release keeps partition, conservation and the journal invariants |
| CreditLaws.RefundBookKeeps | backend/app/services/product_billing.py:340-365 | a committed refund, whose effect RefundOutcome gives, keeps partition, conservation and the journal invariants |
| SpendingOutcomes.CaptureOutcome | backend/app/services/product_billing.py:293-320 | in every reachable state a reserved reservation is charged: each bucket loses its allocation from reserved, and one charge is entered; a captured one is left alone, others are refused |
| SpendingOutcomes.ReleaseOutcome | backend/app/services/product_billing.py:322-338 | a reserved reservation gives each bucket its allocation back without an entry; any other call changes nothing |
| SpendingOutcomes.RefundOutcome | backend/app/services/product_billing.py:340-365 | exactly the captured reservations are refunded: each unexpired bucket regains its allocation, expired ones nothing; the expired allocations, if any, become one new adjustment bucket of the account, all available, without expiry; one refund entry of the amount; a refunded one is left alone |
| SpendingOutcomes.ReroutedStays | backend/app/services/product_billing.py:359-361 | after any later operations the rerouted credits' bucket has no expiry, and no sweep at any later time touches it |
| SpendingOutcomes.SettleDueOutcome | backend/app/services/product_billing.py:367-387 | a due reservation is charged, or gets its credits back, or stays reserved until fifteen minutes from now; one not due, or not reserved, is left alone |
| CreditLaws.AdjustBookKeeps | backend/app/services/product_billing.py:1123-1155 | a committed adjustment of either sign keeps partition, conservation and the journal invariants |
| CreditLaws.GrantBookKeeps | backend/app/services/product_billing.py:1225-1233 | granting a bucket, or finding the existing one, keeps partition, conservation and the journal invariants |
| CreditLaws.ReleaseHoldersCorrect | backend/app/services/product_billing.py:825-828 | releasing every reservation that holds a bucket's credits leaves the bucket with none reserved and keeps the ledger invariant |
| CreditLaws.TakeBackKeeps | backend/app/services/product_billing.py:829-854 | taking unspent credits back keeps the ledger invariant and touches no other bucket |
| Reversal.StepExact | backend/app/services/product_billing.py:856-874 | from credits that match the running total, a reversal is refused exactly when its amount is not positive or exceeds what is left; it is never found corrupt, never capped by the grant, never negative |
| Reversal.PartitionIndependent | backend/app/services/product_billing.py:856-874 | any split of an amount into positive reversals reverses the same credits, the rounded-up share of the total, and exactly the grant when the payment is fully reversed |
| CreditService.BillingService.AddLedgerEntry | backend/app/services/product_billing.py:1235-1247 | inserts the entry with the current balance unless its key was used, refuses zero amounts, and keeps the table equal to the posted journal |
| CreditService.BillingService.ExpireBuckets | backend/app/services/product_billing.py:1249-1255 | the in-place sweep computes the sweep that SweepExact speaks of |
| CreditService.BillingService.HoldCredits | backend/app/services/product_billing.py:278-290 | the in-place loop, with its early exit, allocates exactly the greedy draw |
| CreditService.BillingService.SettleRows | backend/app/services/product_billing.py:301-306 | settles all allocations if and only if each finds enough reserved credits in turn |
| CreditService.BillingService.RestoreRows | backend/app/services/product_billing.py:350-357 | credits exactly the allocations of live buckets and returns the sum of the others |
| CreditService.BillingService.TakeCredits | backend/app/services/product_billing.py:1148-1153 | the in-place loop takes exactly the greedy draw in creation order |
| CreditService.BillingService.ReleaseHolding | backend/app/services/product_billing.py:825-827 | releases every reservation that holds the bucket's credits |
| CreditService.BillingService.ApplySuccess | backend/app/services/product_billing.py:704-776 | commits the success step, whose outcome SuccessOutcome gives in full, or reports its error |
| CreditService.BillingService.ApplyReversal | backend/app/services/product_billing.py:778-854 | commits the reversal step, whose outcome ReversalOutcome gives in full, for an original payment found in the inbox, or reports its error |
| CreditService.BillingService.Reserve | backend/app/services/product_billing.py:232-291 | takes one reserve step of the run, whose outcome ReserveOutcome gives in full, or restores all tables and returns the step's error |
| CreditService.BillingService.Capture | backend/app/services/product_billing.py:293-320 | takes one capture step of the run, or restores all tables and returns the step's error |
| CreditService.BillingService.Release | backend/app/services/product_billing.py:322-338 | takes one release step of the run |
| CreditService.BillingService.Refund | backend/app/services/product_billing.py:340-365 | takes one refund step of the run, whose outcome RefundOutcome gives in full, or restores all tables and returns the step's error |
| CreditService.BillingService.ReconcileExpired | backend/app/services/product_billing.py:367-387 | takes one settlement step for one due reservation |
| CreditService.BillingService.ViewAccount | backend/app/services/product_billing.py:195-199 | takes the trial, account and sweep writes of one account view |
| CreditService.BillingService.ReceiveEvent | backend/app/services/product_billing.py:487-513 | takes the first commit of a webhook, refusing a reused event id with another body |
| CreditService.BillingService.StartEvent | backend/app/services/product_billing.py:514-516 | takes the second commit of a webhook |
| CreditService.BillingService.TakeOverEvent | backend/app/services/product_billing.py:552-578 | takes the first commit of a reconciled event |
| CreditService.BillingService.CompleteEvent | backend/app/services/product_billing.py:517-534 | takes the last commit of a worker that holds an event of the row's period: the event's effect with "processed", or every table restored with "failed" and the event's error returned |
| CreditService.BillingService.RequestCreditAdjustment | backend/app/services/product_billing.py:1010-1031 | takes one request step of the run or rolls back |
| CreditService.BillingService.ApproveCreditAdjustment | backend/app/services/product_billing.py:1058-1082 | takes one approval step of the run or rolls back |
| CreditService.BillingService.RejectCreditAdjustment | backend/app/services/product_billing.py:1103-1117 | takes one rejection step of the run or rolls back |
| ServiceGuarantees.ServiceConserves | backend/app/services/product_billing.py:1235-1255 | after any method calls the object's tables are those of a reachable state, and its ledger table sums to the balance plus the dropped credits |
| Inbox.AgainUnlessSettled | backend/app/services/product_billing.py:487-602 | an event can be applied once more if and only if it is not processed or some worker is still at it |
| Inbox.AtMostOnce | backend/app/services/product_billing.py:487-602 | if workers never overlap, an event is applied at most once through repeats, failures, crashes and takeovers, and its row says processed exactly when it was |
| Inbox.PromptAtMostOnce | backend/app/services/product_billing.py:604-620 | an event is applied at most once if no worker exceeds the five-minute stale limit and neither a delivery nor a takeover of a provider-fetched event, which skips the stale query, starts while a worker is at it |
| Inbox.CommitsFollow | backend/app/services/product_billing.py:487-602 | the commits of the billing state machine change an event's row exactly as the protocol's steps say, a failed event included |
| Inbox.OverlapAppliesTwice | backend/app/services/product_billing.py:501-519 | two deliveries that overlap before either starts apply the event twice |
| Inbox.ListedAfter | backend/app/services/product_billing.py:604-620 | left alone, a failed event is listed for reconciliation at once, one being processed once more than five minutes have passed, and no other |
| PaddleEvents.SamePeriod | backend/app/services/payment_adapter.py:271-333 | webhook and reconciliation events of one transaction mean the same period if and only if the transaction has an id or the event ids coincide |
| PaddleEvents.OneGrantPerTransaction | backend/app/services/payment_adapter.py:282-333 | in every reachable state, two payment grant entries whose inbox events tell of one transaction are the same entry, whatever ids the events came under |
| PaddleEvents.GrantedOnce | backend/app/services/payment_adapter.py:282-333 | once a transaction was granted, after any further run, no event about it changes credits or reversal state |
| PaddleEvents.ReversalMatches | backend/app/services/payment_adapter.py:302-316 | an approved refund or chargeback finds a success event as its original payment exactly when both name the same transaction |
| PaddleEvents.TransactionPays | backend/app/services/payment_adapter.py:282-301 | a completed transaction that pays for the first time grants, under its id as period, the credits of the offer it pays exactly, to the user of its subscription if it recurs and of its checkout otherwise, until the end it names or thirty days from its start |
| PaddleEvents.NoticeActs | backend/app/services/payment_adapter.py:302-322 | an approved refund or chargeback reverses the amount it names, or all, of its transaction's payment; other adjustments and notices do nothing, and a cancellation marks its subscription |
| Catalog.ActivateKeepsChain | backend/app/services/product_billing.py:931-951 | activation anywhere in the schedule keeps each published interval ending at the next start and only the last open |
| Catalog.ActiveIsLatest | backend/app/services/product_billing.py:67-82 | at every time the active catalog is the one with the greatest start not after it, and none exactly when there is no such start |
| Catalog.ActivateLocal | backend/app/services/product_billing.py:899-951 | activating at e changes the answer only from e up to the next start, where it is the new catalog |
| Catalog.ActivateAllCorrect | backend/app/services/product_billing.py:899-951 | a sequence of activations succeeds exactly when its catalogs are distinct drafts with distinct unused start times, and then publishes exactly them |
| Catalog.OrderIndependent | backend/app/services/product_billing.py:931-951 | the same activations in any order succeed alike and leave the same schedule |
| Catalog.CatalogTable.FindNeighbours | backend/app/services/product_billing.py:937-947 | the scan finds a time conflict exactly when one exists, and otherwise the nearest published start on each side |
| Catalog.CatalogTable.Publish | backend/app/services/product_billing.py:899-951 | the in-place activation computes the schedule step or changes nothing, and keeps the chain |
| Commands.RowsKept | backend/app/services/product_billing.py:1186-1207 | every run commits only completed command rows and never changes one |
| Commands.CallExact | backend/app/services/product_billing.py:1186-1207 | a first call carries its command out and commits its effect with a row of its hash and resource, or changes nothing; a later call of the slot is answered from the row |
| Commands.NeverInProgress | backend/app/services/product_billing.py:1193-1194 | over every run from an empty table, no call is told that its command is in progress |
| Commands.RepeatAnswered | backend/app/services/product_billing.py:1186-1200 | after a completed call and any later run, a repeat with an equal hash is answered with the first resource, one with another hash is refused, and neither changes anything |
| Commands.RepeatsCollapse | backend/app/services/product_billing.py:1186-1207 | every run ends like the run without the calls whose slot was already completed |
| Commands.FirstCallsExact | backend/app/services/product_billing.py:1186-1207 | keeping only the first call of every slot preserves the final store if and only if no command failed first and completed later |
| Commands.RetryMatters | backend/app/services/product_billing.py:1186-1207 | a command that is refused, then completes on a second try after credits arrived: without the second try it never completes |
| Commands.CommandTable.Command | backend/app/services/product_billing.py:1186-1200 | a replay means a completed row with this hash, a new command a row with this hash that is open; nothing else and no other slot changes |
| Commands.CommandTable.CompleteCommand | backend/app/services/product_billing.py:1201-1207 | the slot is completed with the resource, keeps its hash, and no other slot changes |
| AdjustmentCommands.OneKeyOneAdjustment | backend/app/services/product_billing.py:991-1121 | over every run of adjustment commands with repeats among all other operations, request keys and adjustments correspond one to one, and each adjustment has one ledger entry of its amount if executed and none otherwise |
| AdjustmentCommands.FirstCommand | backend/app/services/product_billing.py:991-1121 | the first call under a key makes or decides the adjustment its endpoint names, as its actor, and answers with that adjustment |
| Paging.FetchSplits | backend/app/services/product_billing.py:201-217 | a page starts the remaining listing, and what sorts behind its cursor is exactly the rest |
| Paging.Shrinks | backend/app/services/product_billing.py:201-217 | following the cursor terminates, whatever is written meanwhile |
| Paging.FollowDescending | backend/app/services/product_billing.py:201-217 | whatever is written meanwhile, no entry is shown twice or out of order |
| Paging.FollowComplete | backend/app/services/product_billing.py:201-217 | whatever is written meanwhile, no entry present at the start is skipped |
| Paging.FollowExact | backend/app/services/product_billing.py:201-217 | the pages give exactly the initial listing if and only if nothing is written behind the cursor then in use |
| Paging.WholeLedger | backend/app/services/product_billing.py:201-217 | from the start, with any page size, while strictly newer entries are written, the pages give exactly the ledger in descending order |
| Purge.LeastClosed | backend/app/services/product_privacy.py:357-370 | the rows reachable from the user's rows by walks down child references are the least set that holds those rows and is closed under them |
| Purge.ReachableExact | backend/app/services/product_privacy.py:334-370 | a row is reachable if and only if its table is not retained and has ids, and it is the user's own or refers to the id of a reachable row |
| Purge.ReachablePurgeable | backend/app/services/product_privacy.py:357-370 | no row of a retained table or a table without an id is reachable |
| Purge.Purger.DeleteRows | backend/app/services/product_privacy.py:371-372 | deletes the batch and keeps the manifest equal to the rows deleted per table |
| Purge.RankedIffAcyclic | backend/app/services/product_privacy.py:363-370 | the followed keys form no cycle of tables if and only if each leads to a table of smaller height, the number of tables below it |
| Purge.Purger.DeleteGraph | backend/app/services/product_privacy.py:357-372 | terminates on cyclic graphs too; deletes exactly what it visits, leaves every child of a visited row visited, visits nothing outside any closed set that holds its ids, and under ranked tables leaves no reference through a followed key to a row it deletes |
| Purge.Purger.SelectChildren | backend/app/services/product_privacy.py:363-369 | selects exactly the rows that reference the batch through the key |
| Purge.Purger.PurgeUser | backend/app/services/product_privacy.py:323-355 | deletes exactly the reachable rows; the manifest counts them per table; all references left to a row when it is deleted are recorded, and where the followed keys form no cycle of tables each of them is from a retained table, from a table without an id, or not to an id |
| SessionLeases.RunBounded | backend/app/services/gemini_interview_gateway.py:96-146 | no sequence of calls on the in-process map stores more than the limit of leases, so at no time are more unexpired |
| SessionLeases.ScriptBounded | backend/app/services/gemini_interview_gateway.py:40-54 | no sequence of script calls stores more than the limit of leases, whatever it refreshes and whatever Redis evicts |
| SessionLeases.AcquireExact | backend/app/services/gemini_interview_gateway.py:96-112 | acquisition from the map is refused exactly when the limit of leases is unexpired, and otherwise adds exactly its token |
| SessionLeases.LeaseTerm | backend/app/services/gemini_interview_gateway.py:96-146 | an accepted acquisition or refresh gives its token a lease of exactly the configured time from now, a drop ends it, and no call touches another token's lease |
| SessionLeases.AcquireScriptExact | backend/app/services/gemini_interview_gateway.py:40-47 | the acquisition script refuses exactly when the limit of stored leases is unexpired |
| SessionLeases.NeverBack | backend/app/services/gemini_interview_gateway.py:131-136 | a token that left the map stays out through every run that does not acquire it again, and cannot be refreshed |
| SessionLeases.ScriptNeverBack | backend/app/services/gemini_interview_gateway.py:48-54 | a token that left the sorted set, or whose key was evicted, stays out through every run of script calls that does not acquire it again, and cannot be refreshed |
| SessionLeases.StepAgrees | backend/app/services/gemini_interview_gateway.py:40-54 | map and Redis scripts answer a call alike if and only if it does not refresh a token only the map still holds, which has then expired |
| SessionLeases.RevivalParts | backend/app/services/gemini_interview_gateway.py:114-136 | from empty stores, a token refreshed just when its lease runs out is live again in the map and refused by Redis |
| SessionLeases.RunAgrees | backend/app/services/gemini_interview_gateway.py:40-146 | without such a refresh both backends go through the same leases |
| SessionLeases.SessionLimiter.AcquireLease | backend/app/services/gemini_interview_gateway.py:96-112 | the in-place purge and insert compute the abstract step and keep the bound |
| SessionLeases.SessionLimiter.RefreshLease | backend/app/services/gemini_interview_gateway.py:131-136 | the in-place refresh computes the abstract step and keeps the bound |
| SessionLeases.SessionLimiter.ReleaseLease | backend/app/services/gemini_interview_gateway.py:145-146 | the in-place removal computes the abstract step and keeps the bound |
| Executor.StepBulkhead | backend/app/core/provider_resilience.py:264-301 | every step of every caller keeps the in-flight count equal to the callers between acquire and release, within the limit |
| Executor.StepCircuits | backend/app/core/provider_resilience.py:236-262 | every step keeps the circuit's failures equal to those since the last success, and open_until equal to the last failure's time plus the configured time from the threshold on, zero below |
| Executor.StepRecords | backend/app/core/provider_resilience.py:125-176 | every step keeps the recorded outcomes equal to those of the finished calls and the callers about to leave, where an aborted call has none |
| Executor.RunKeeps | backend/app/core/provider_resilience.py:125-301 | all of this, and between one and the configured number of invocations per admitted call, in every interleaving, with calls that abort in the operation or the back-off |
| Executor.EnterExact | backend/app/core/provider_resilience.py:217-234 | after any interleaving a new caller is refused if and only if its key's last recorded outcome is a failure that brought the failures since the last success to the threshold, and the circuit's time since then is not over |
| Executor.AdmitExact | backend/app/core/provider_resilience.py:264-286 | after any interleaving a caller past the circuit is admitted if and only if fewer than the limit of its key's callers are |
| Executor.CallerDecides | backend/app/core/provider_resilience.py:134-172 | whatever other callers do, an admitted caller invokes again exactly after retryable failures while attempts are left, and its outcome is that of the deciding attempt |
| Executor.Decides | backend/app/core/provider_resilience.py:134-172 | every attempt before the deciding one failed retryably, and the deciding one did not, unless it is the last allowed |
| Executor.ProviderExecutor.Execute | backend/app/core/provider_resilience.py:125-176 | one call alone is refused by the circuit if and only if it is open, then by the bulkhead if and only if the limit is reached, without a change; else it records one outcome at the deciding attempt, none if that attempt aborts; it leaves the in-flight table as it was |
| Executor.ProviderExecutor.AcquireBulkhead | backend/app/core/provider_resilience.py:264-286 | admits exactly below the limit; the key's count rises by one on admission and no other count changes |
| Executor.ProviderExecutor.ReleaseBulkhead | backend/app/core/provider_resilience.py:288-301 | the key's count falls by one, never below zero, and no other count changes |
| Executor.ProviderExecutor.RecordFailure | backend/app/core/provider_resilience.py:243-262 | the key's failures rise by one, its circuit is open now if and only if they reached the threshold, and no other circuit changes |
| Rollout.ActivateKeeps | backend/app/services/product_admin_ops.py:196-246 | activation keeps one active and at most one canary per purpose, a canary only beside an active one, percentages by status, and a passed report of its own on every deployed configuration |
| Rollout.ActivateOutcome | backend/app/services/product_admin_ops.py:196-246 | an activation is accepted if and only if it has a passed report of its configuration and, below 100 percent, another active one of the purpose; it deploys its configuration, retires the purpose's canary and at 100 percent its active one, and changes no other row |
| Rollout.RunKeeps | backend/app/services/product_admin_ops.py:196-246 | so does every sequence of activations from a store of drafts |
| Rollout.RaiseEnlarges | backend/app/services/runtime_configuration.py:15-50 | raising a canary's percentage, up to 100, keeps every subject it served and moves others only to it; at 100 it serves every subject |
| Rollout.RouteExact | backend/app/services/runtime_configuration.py:15-50 | without an active configuration there is no routing; a canary serves exactly the subjects whose hash falls below its percentage, the active one all others |
| Rollout.ConfigTable.ActivateConfiguration | backend/app/services/product_admin_ops.py:201-239 | the in-place loops compute the activation step or change nothing |

## Left out

- Payment provider: one provider; the provider column of subscriptions, inbox and reversal states is constant.
- Transactions: each operation is one atomic commit or no change; sessions, row locks and isolation levels are not modelled, only the payment inbox is split into its commits.
- CreditService.BillingService.ReconcileExpired: settles one reservation per call; the batch limit and order of the query are arbitrary sequences of steps, and the outcome its domain record calls for is a parameter.
- Query order without an ORDER BY, and created_at order, is insertion order; ids are row indices.
- Catalog, price and trial-policy lookups inside reserve are parameters; the catalog lookup itself is the subject of `Catalog`.
- AdjustmentOutcomes.RequestOutcome: whether a request needs a second person is a parameter; the code compares its amount with a threshold of the settings.
- Offers have positive price and credits, as the request schema demands; descriptions, metadata, actor and reason columns have no counterpart.
- CreditService.BillingService.CompleteEvent: the event a worker holds is arbitrary, except that a success event means the billing period of the stored row: a webhook is accepted for a known id only with the stored body, and a reconciliation id hashes its transaction id. Hash collisions are left out.
- Signature checks, hashing and JSON parsing are opaque; malformed amounts and times are explicit cases.
- CreditService.BillingService.RequestCreditAdjustment: the command row around it is in AdjustmentCommands, on values.
- CreditService.BillingService.ApproveCreditAdjustment: the command row around it is in AdjustmentCommands, on values.
- CreditService.BillingService.RejectCreditAdjustment: the command row around it is in AdjustmentCommands, on values.
- AdjustmentCommands.OneKeyOneAdjustment: a replay is recognised before the payload is validated; the code refuses a zero amount or an unknown user first.
- Executor.ProviderExecutor.Execute: the single call's back-off is not interrupted; the interleaved model has that step.
- PaymentOutcomes.CheckoutOutcome: a checkout step only stores a session; its idempotency key, offer check and redirect rules are left out.
- Subscription customer ids, cancel_at_period_end and provider calls of checkout and portal creation; liveness of checkout reconciliation, which selects a status no modelled code sets.
- Commands: creating catalogs, feature prices and trial policies are instances of the generic command.
- Paging: the base64 cursor encoding and the malformed-cursor error.
- Purge.Purger.PurgeUser: each table's foreign keys are one list; cascades of the database, the export, storage, cache and tombstone steps are not modelled.
- Executor.RunKeeps: the locked in-process path only; the Redis bulkhead decrements and deletes in two steps, for which the admission bound does not hold; budgets, metrics, back-off delays and telemetry.
- SessionLeases: a limiter uses one backend throughout; token generation is a parameter.
- Rollout.RaiseEnlarges: the digest of purpose, configuration and subject is an arbitrary function; the provider-mismatch error of the lookup is left out.
- HTTP routes, schemas, migrations, settings, float scores and the CV, interview, matching and crawler services.
