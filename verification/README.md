# paybox, modelled

paybox emulates payment providers. Behind its adapters is one provider-independent core: a money engine over an
append-only ledger and an append-only event log, a job queue on virtual time, recurring billing driven by that queue,
webhook delivery with retries, and two small kernels, a canonical JSON serialiser and a seeded generator. This project
models that core in Dafny and proves what it promises. `dafny verify dfyconfig.toml` checks all of it.

## How it is laid out

Each component has a specification on values and, where the code works by updating rows or fields, a class whose methods
do the same updates and are proved to leave exactly the state the specification names. The theorems are about the
specifications, so they hold of the classes.

| component | specification and theorems | code on tables |
|---|---|---|
| money engine | `StateMachine`, `Storage`, `EngineSpec`; `Calls`, `Movements`, `EventLog`, `Timelines`, `Settlement`, `Refunds`, `Transfers`, `Accounts`, `Conservation`, `Solvency` | `Engine` |
| virtual time | `JobRuns`, `DueOrder`, `Retrying` | `Clock`, `Scheduler` |
| calendar | `Calendar`, `Recurrence` | `Recurrence` (`UtcDate` and the three methods) |
| recurring billing | `BillingStates`, `Billing`, `Dunning` | `Subscriptions` |
| invoices and proration | `Invoicing`, `Proration` | `InvoiceEngine` |
| webhooks | `Webhooks` | `Dispatcher` |
| idempotency | `JsonText`, `JsonNumbers`, `JsonReading`, `CanonicalJson`, `Idempotency` | `Idempotency` (`IdempotencyPlugin`) |
| generator, splits | `Random`, `Splits` | `Random` (`Xoshiro128`), `Splits` (`ComputeSplit`) |

A public method of the engine is one transaction: it either gives the new tables or an error and the old ones. A run is
any sequence of operations, refused ones included. Balances are folds over ledger rows, never stored. What the calls of a
run asked of each transfer, and what its release found in the metadata, is noted beside the tables (`Transfers.Notes`);
the code keeps no such record.

## What the code does that its comments do not say

The model follows the code.

- The payment table lists `partially_refunded` as a successor of itself, but a move to the present status is refused
  before the table is read (packages/core/src/state-machine.ts:300). So only one refund that leaves part of a payment
  can settle; `Refunds.SettlesExactlyWhen` gives the exact condition.
- `totalRefunded` counts refunds that have not settled yet, so `amountRefunded` can run ahead of what has settled:
  `Refunds.RefundedRunsAhead` is a case, `Refunds.RefundedIsSettledExactlyWhen` the exact condition.
- A transfer moved to `reversed` has its reservation released and can then be reversed again: the money returns twice.
  `Transfers.OverReturnsExactlyAfterRelease` says exactly when.
- A release reads the keys `fee`, `fee_refundable` and `paybox_reserved` back from a transfer's metadata, which callers
  can write at creation, in an update and with the transition itself. `Transfers.ReleasesWhatWasReserved` says exactly
  when it gives back what was debited; `UpdatedThenReleased`, `DirtyCreations` and `FundedLaterThenFailed` are cases
  where it does not.
- A simulated reversal can take a refunded payment back to `successful`, and settles it again
  (`Settlement.SettledAgainAfterRefund`).
- A direct charge whose fee is all of its amount cannot be settled: the account would be credited with nothing, and the
  ledger refuses that (`Calls.PaymentMovesExactlyWhen`).
- Six monthly periods from the 31st need not end where one biannual period does: a short month in between leaves its mark
  (`Recurrence.SixMonthsAreHalfAYear` says exactly when).
- Waiting lines are swept onto an invoice whatever their currency (`Invoicing.DollarsBilledAsEuros`).
- A pending invoice created with an explicit amount and no lines ends at the fold over its lines, which is zero. A draft
  keeps the amount until its lines are edited.
- A subscription item named by two entries of one change is credited twice at its old price.
- Jobs are in due order within one claimed batch only: a follow-up due before a job already claimed runs after it
  (`DueOrder.FollowUpOvertaken`). `DueOrder.DrainInOrderExactlyWhen` says when a whole drain is in order,
  `DueOrder.OneAtATimeInOrderExactlyWhen` and `DueOrder.NothingNewIsInOrder` what can be told before it; no other
  result depends on it.
- A charge job whose invoice comes to nothing throws, because a payment must be positive, and nothing schedules the next
  cycle of a subscription that is still renewing (`Billing.OpensTheNextCycleExactlyWhen`).
- A request without a body and one whose body is `null` digest to the same text; so does a number too large for a
  double, which is written as `null`.
- Two requests under one idempotency key that overlap both run. The key is inserted plainly under a primary key, so the
  later success fails to insert and its client is sent an error, although its handler has run.

## Model

| member | source | states |
|---|---|---|
| `Engine.PaymentEngine.AppendEvent` | packages/core/src/engine.ts:3549-3560 | numbers the event one past the last of its resource and appends it, in the tables as they then are |
| `Engine.PaymentEngine.AppendLedger` | packages/storage/src/storage.ts:1406-1421 | appends a positive row, and refuses one that is not positive with nothing changed |
| `Engine.PaymentEngine.CreatePayment` | packages/core/src/engine.ts:279-359 | inserts the payment with its created event, or refuses a non-positive amount with the tables untouched |
| `Engine.PaymentEngine.TransitionPayment` | packages/core/src/engine.ts:367-501 | moves the status by the table, and on settlement posts the charge and forwards it, or leaves every table as it was |
| `Engine.PaymentEngine.Collect` | packages/core/src/engine.ts:423-488 | the rows of one settlement: direct, forwarded or ordinary, with the fee split off where the mode says so |
| `Engine.PaymentEngine.CreateRefund` | packages/core/src/engine.ts:543-590 | a refund of what is still refundable, pending refunds counted, or the refusal that applies |
| `Engine.PaymentEngine.TransitionRefund` | packages/core/src/engine.ts:605-682 | settles a refund together with its payment and its ledger row, or rolls all of it back |
| `Engine.PaymentEngine.InsertAndReserve` | packages/core/src/engine.ts:848-907 | inserts a transfer, debits amount and fee, and credits the other side of an internal move |
| `Engine.PaymentEngine.CreateTransfer` | packages/core/src/engine.ts:763-919 | checks the funds where they are enforced, then reserves, or refuses with nothing changed |
| `Engine.PaymentEngine.TransitionTransfer` | packages/core/src/engine.ts:921-1013 | moves a transfer by the table with its metadata merged, releasing the reservation of one that fails |
| `Engine.PaymentEngine.Release` | packages/core/src/engine.ts:958-998 | credits back what was reserved, from the other balance where there is one |
| `Engine.PaymentEngine.UpdateTransferMetadata` | packages/core/src/engine.ts:1038-1049 | touches the metadata and nothing else, and logs nothing |
| `Engine.PaymentEngine.TransferBetweenBalances` | packages/core/src/engine.ts:3177-3211 | one debit and one credit of the same amount, or neither |
| `Engine.PaymentEngine.ReverseTransfer` | packages/core/src/engine.ts:1051-1140 | returns part or all of an internal transfer and raises what has been reversed, or refuses |
| `Engine.PaymentEngine.FindForwarded` | packages/storage/src/storage.ts:407-422 | the newest transfer made for a payment within one page of 500 |
| `Engine.PaymentEngine.FeeShare` | packages/core/src/engine.ts:3030-3039 | the part of a fee refund that still has money behind it; `Movements.FeeRefundMovesInEveryRun` says how much that is |
| `Engine.PaymentEngine.RefundPlatformFee` | packages/core/src/engine.ts:2943-3021 | raises the fee refunded and moves between the balances the share `Movements.FeeRefundMovesInEveryRun` describes, or refuses |
| `Engine.PaymentEngine.CreateDispute` | packages/core/src/engine.ts:3313-3389 | opens a dispute on a collected payment for no more than it |
| `Engine.PaymentEngine.TransitionDispute` | packages/core/src/engine.ts:3398-3430 | moves a dispute by its table |
| `Engine.PaymentEngine.ResolveDispute` | packages/core/src/engine.ts:3450-3522 | closes a dispute, and when conceded refunds the payment in the same transaction or not at all |
| `Engine.PaymentEngine.RecordBalance` | packages/core/src/engine.ts:3266-3300 | one ledger row of the given direction, if positive |
| `Engine.PaymentEngine.ExchangeBalance` | packages/core/src/engine.ts:3228-3263 | debits one currency and credits another of the same owner, after the funds check if asked for |
| `Engine.PaymentEngine.Transact` | packages/storage/src/storage.ts:102-110 | every operation commits exactly what its specification says or leaves all tables as they were |
| `Timelines.LogMovesByTheTables` | packages/core/src/state-machine.ts:295-328 | over every run each event of the log repeats its object's status or moves it as the tables allow, a reversal of the last of a transfer apart; a payment that has ended is lifted only in a run that simulates a reversal, or retries a failure |
| `StateMachine.PaymentMovesExactlyTo` | packages/core/src/state-machine.ts:28-51 | where a payment may go, told by where it is going: an open one fails or expires at any time, is cancelled unless it is being processed, is collected once past its creation and refunded after that; a reversal lifts an ended one, a retry a failed one |
| `StateMachine.RefundMovesExactlyTo` | packages/core/src/state-machine.ts:65-71 | a refund settles, fails, stops for attention or resumes from wherever it is open |
| `StateMachine.TransferMovesExactlyTo` | packages/core/src/state-machine.ts:84-92 | a transfer is called off only until it is processed and marked reversed only from then on |
| `StateMachine.DisputeMovesExactlyTo` | packages/core/src/state-machine.ts:242-247 | a dispute can always be resolved, once, and never asks the merchant twice |
| `StateMachine.RefundedExactlyWhenAll` | packages/core/src/state-machine.ts:376-381 | a payment is `refunded` exactly when all of it has been |
| `BillingStates.SubscriptionMovesExactlyTo` | packages/core/src/state-machine.ts:106-117 | a subscription that has ended stays ended; only an active one falls into `attention` |
| `BillingStates.InvoiceMovesExactlyTo` | packages/core/src/state-machine.ts:140-147 | an invoice is finalized from a draft or after a failed attempt, written off and paid late only once it is owed, and voided until it is paid |
| `Calls.PaymentCreatedExactlyWhen` | packages/core/src/engine.ts:279-359 | a positive amount is all it takes, and a fee below zero reads as none |
| `Calls.PaymentMovesExactlyWhen` | packages/core/src/engine.ts:367-501 | a payment moves as the table says, but that a direct charge which its fee would use up cannot be settled |
| `Calls.ForwardedLeavesATransfer` | packages/core/src/engine.ts:462-486 | a forwarded charge leaves a successful transfer to the account, from the payment, for what the fee leaves of it |
| `Calls.OneMoreRefundCounts` | packages/storage/src/storage.ts:350-361 | a refund counts against its payment from the start and until it fails |
| `Calls.RefundCreatedExactlyWhen` | packages/core/src/engine.ts:543-590 | a refund is accepted exactly on a payment that is `successful` or `partially_refunded`, for more than nothing and no more than is left |
| `Calls.RefundMovesExactlyWhen` | packages/core/src/engine.ts:605-682 | a refund moves by its table; when it settles, its payment is refunded by everything that then counts, and `refunded` exactly when that is all of it |
| `Calls.TransferMovesExactlyWhen` | packages/core/src/engine.ts:921-1013 | a transfer moves exactly as its table says, with each metadata key as it was unless the patch has it; what it releases is never refused |
| `Calls.MetadataWrittenExactlyWhen` | packages/core/src/engine.ts:1038-1049 | writing metadata touches the keys of the patch and nothing else |
| `Calls.DisputeCreatedExactlyWhen` | packages/core/src/engine.ts:3313-3389 | a dispute is opened exactly on a collected payment, for no more than it |
| `Calls.DisputeMovesExactlyWhen` | packages/core/src/engine.ts:3398-3430 | a dispute moves by its table, and nothing else with it |
| `Calls.DisputeResolvedExactlyWhen` | packages/core/src/engine.ts:3450-3522 | a dispute is closed once; conceding something refunds it at once, and refuses the call exactly when the payment cannot be refunded so |
| `Calls.EachCallReports` | packages/core/src/engine.ts:3549-3560 | every accepted call logs one event for each row whose status it writes, and none for metadata and entries in the balances |
| `Movements.EntryMoves` | packages/core/src/engine.ts:3266-3300 | a credit puts its amount into one pot, a debit takes it out, and no other pot moves |
| `Movements.ExchangeMoves` | packages/core/src/engine.ts:3228-3263 | an exchange takes what is sold out of one pot and puts what is bought into the same owner's other one; it is refused exactly for the wrong amounts, one currency, or checked funds that are not there |
| `Movements.TransferMoves` | packages/core/src/engine.ts:763-919 | a transfer takes amount and fee from its source and puts the amount where it goes; it is refused exactly for no amount, or for funds that are enforced and not there, fee included |
| `Movements.TransferRow` | packages/core/src/engine.ts:848-870 | the row is what was asked for, nothing of it reversed |
| `Movements.ReversalMoves` | packages/core/src/engine.ts:1051-1140 | a reversal takes back part of an internal transfer, or all that is left; exactly when it is accepted, and that the last of it marks the transfer |
| `Movements.ReleaseMoves` | packages/core/src/engine.ts:958-998 | a transfer that fails, is cancelled or is marked reversed gives back what still stands of it and the fee its metadata then names, unless the metadata says that nothing was reserved or that the fee is kept |
| `Movements.RefundMoves` | packages/core/src/engine.ts:657-679 | a settled refund leaves the account of a direct charge and the platform's balance of any other |
| `Movements.FeeRefundedExactlyWhen` | packages/core/src/engine.ts:2943-2985 | a fee is refunded exactly while there is as much of it left, and that is recorded |
| `Movements.FeeRefundMovesInEveryRun` | packages/core/src/engine.ts:3030-3039 | in every reachable state a fee refund is worth the same to the account as it costs the platform: all of it for a direct charge or while nothing of the forwarding transfer has been reversed, nothing once all of it has, and between them the floor of the share that stands |
| `Movements.FeeRefundsAddUp` | packages/core/src/engine.ts:2943-3039 | over every run fee refunds have moved no more than is recorded as refunded, and exactly that for a direct charge or while no transfer made for the payment has been reversed |
| `EventLog.LogAndProjectionAgree` | packages/core/src/engine.ts:3549-3560 | over every run, each payment, refund, transfer and dispute has events 1..n without a gap, each starting where the last ended, and its row shows the status of the last |
| `EventLog.StepKeepsLog` | packages/core/src/engine.ts:408-419 | one operation, refund settlement, reversal, fee refund and dispute included, keeps every timeline in agreement with its row |
| `Settlement.SettlementDivides` | packages/core/src/engine.ts:423-488 | one settlement moves every pot by exactly its share under the mode and the book by exactly the amount |
| `Settlement.StepOnPayment` | packages/core/src/state-machine.ts:295-328 | no operation changes a payment but by the table, a reversal, a retry or a refund count |
| `Settlement.CollectedEntry` | packages/core/src/state-machine.ts:28-51 | the collected statuses are entered through `successful` only and never left |
| `Settlement.SettlesWhenCollected` | packages/core/src/engine.ts:367-501 | a payment becomes collected in a step exactly when that step is its successful settlement |
| `Settlement.EachSettlementPaysItsShare` | packages/core/src/engine.ts:423-488 | over any run, reversals included, every pot gains its share exactly as many times as the payment was settled, and the book its amount |
| `Settlement.SettlementsCounted` | packages/core/src/state-machine.ts:295-328 | over any run the number of settlements is one for becoming collected, one for each reversal that takes a refunded payment back, less the reversals that mark an unpaid payment refunded; without reversals there are neither |
| `Settlement.SettlesAgainExactlyWhen` | packages/core/src/state-machine.ts:307-312 | a collected payment is settled again by a reversal of a refunded one to `successful` and by nothing else |
| `Settlement.SettledAgainAfterRefund` | packages/core/src/state-machine.ts:312 | a payment of 100, refunded in full and taken back to `successful`, puts another 100 into its book |
| `Settlement.LogCountsSettlements` | packages/core/src/engine.ts:3549-3560 | the log of any run reports exactly its settlements, repeated reports of a status not counted |
| `Settlement.SettledExactlyOnce` | packages/core/src/engine.ts:423-488 | over any run with retries and without reversals, every pot gains its share once if the payment ends collected and nothing otherwise |
| `Refunds.RefundsStayBounded` | packages/core/src/engine.ts:543-682 | over every run the non-failed refunds of a payment stay within it, `amountRefunded` lies between what settled and the amount, and each settled refund is paid once from its pot |
| `Refunds.CreateRefundKeepsBooks` | packages/storage/src/storage.ts:350-361 | a refund created against the non-failed total keeps those bounds |
| `Refunds.TransitionRefundKeepsBooks` | packages/core/src/engine.ts:605-682 | settling, failing or moving a refund keeps those bounds and the payout record |
| `Refunds.SettlesExactlyWhen` | packages/core/src/state-machine.ts:295-308 | a refund can settle exactly when the payment is `successful`, or `partially_refunded` and completed by it |
| `Refunds.RefundedIsSettledExactlyWhen` | packages/storage/src/storage.ts:350-361 | after any settlement `amountRefunded` is what has settled if and only if every other refund of the payment that has not failed had settled already |
| `Refunds.RefundedRunsAhead` | packages/core/src/engine.ts:628-679 | of a payment of 100 with refunds of 30 and 40 open, settling the 30 records 70, and it stays 70 when the 40 fails |
| `Refunds.SecondPartialRefundAborts` | packages/core/src/state-machine.ts:44 | the `partially_refunded` self-edge is never usable: a second partial settlement aborts |
| `Transfers.TransfersBalance` | packages/core/src/engine.ts:763-1140 | over every run, whatever is written into its metadata, a transfer's rows are what its creation, its reversals and at most one release say: creation debits amount and fee, reversals move back what is marked reversed, and the pots change by exactly what the transfer keeps |
| `Transfers.StepKeepsBooked` | packages/core/src/engine.ts:1038-1049 | every operation keeps that, rewritten metadata included |
| `Transfers.KeepsItsPromiseExactlyWhen` | packages/core/src/engine.ts:964-997 | a transfer keeps what its creation asked, between balances no more than its fee less the refundable part once released, exactly when the release read a fee that agrees, and for a payout the flag too |
| `Transfers.ReleasesWhatWasReserved` | packages/core/src/engine.ts:958-998 | in every reachable state, reserved or not, a releasing transition leaves returned the amount and the refundable part of what creation debited if and only if the merged metadata has the flag and the refundable fee of creation |
| `Transfers.AgreedExactlyWhen` | packages/core/src/engine.ts:939-962 | all the releases of a run go by the terms of creation exactly when the keys agree at each releasing transition |
| `Transfers.CleanRunsAgree` | packages/core/src/engine.ts:810-821 | callers who never write the three keys themselves always get that |
| `Transfers.NeverOverReturned` | packages/core/src/engine.ts:964-997 | over every run the reversed amount stays within the amount, and what came back within what creation debited exactly when no reversal was accepted after the release |
| `Transfers.OverReturnsExactlyAfterRelease` | packages/core/src/engine.ts:1051-1110 | one reversal returns too much exactly when the reservation had been released, and then the status is `reversed` |
| `Transfers.ReversedTwice` | packages/core/src/engine.ts:1064 | a transfer of 100 moved to `reversed` and then reversed in full returns 200 |
| `Transfers.UpdatedThenReleased` | packages/core/src/engine.ts:1038-1049 | a payout of 100 whose metadata is given a fee of 50 before it fails returns 150 |
| `Transfers.DirtyCreations` | packages/core/src/engine.ts:810-821 | the same keys written by the caller at creation return 150 of the 100 debited, or nothing |
| `Transfers.FundedLaterThenFailed` | packages/providers/wise/src/routes.ts:640-791 | a transfer created unreserved with a fee of 30, funded by a debit of 100 and then marked reserved, returns 130 when it fails |
| `Conservation.PotsMakeTheBook` | packages/storage/src/storage.ts:1422-1439 | the balances of a book's owners, each counted once, add up to the whole ledger of the book |
| `Conservation.BalanceSheet` | packages/core/src/engine.ts:3153-3160 | a book holds the amount of each payment for every settlement the log reports, less refunds paid, less what transfers keep, plus what adapters posted; fee refunds cancel |
| `Conservation.RunStaysSound` | packages/storage/src/storage.ts:1406-1439 | every run keeps the records the balance sheet is drawn from |
| `Conservation.MoneyIsConserved` | packages/storage/src/storage.ts:1406-1439 | the balance sheet holds after every run from empty tables, with any operations, reversals and metadata |
| `Conservation.MoneyIsConservedAsPromised` | packages/core/src/engine.ts:958-998 | where the keys agree at every release, it holds with each transfer keeping what its creation asked |
| `Conservation.SettledOnceWithoutReversals` | packages/core/src/state-machine.ts:295-328 | without reversals the log counts one settlement of each payment that is collected and was not created so, and none of any other |
| `Solvency.StepStaysSolventExactlyWhen` | packages/core/src/engine.ts:605-682 | with enforcement on, any accepted operation leaves every pot at or above zero if and only if its one unchecked debit, of a settled refund, conceded dispute, fee refund, plain debit, unchecked exchange or failed internal transfer, fits the pot it comes from |
| `Solvency.NeverOverdrawnExactlyWhen` | packages/core/src/engine.ts:852-892 | no pot falls below zero at any point of a run exactly when every unchecked debit of the run fits |
| `Solvency.NeverOverdrawn` | packages/core/src/engine.ts:852-892 | no pot falls below zero in any run of settlements, guarded spending, bank payouts and their failures, reversals and checked exchanges, which draw nothing unchecked |
| `Solvency.OpensSolvent` | packages/core/src/engine.ts:3153-3160 | the empty books are solvent exactly when the opening float is not negative |
| `Clock.VirtualClock.constructor` | packages/core/src/time/clock.ts:29-66 | carries on from a record, or starts at the given instant or the wall clock's, and from there stands still or keeps pace |
| `Clock.VirtualClock.State` | packages/core/src/time/clock.ts:157-159 | a record that a later clock resumes from shows, at any later time, what this clock would have shown |
| `Clock.VirtualClock.Freeze` | packages/core/src/time/clock.ts:113-123 | stops at the target, refusing to go back |
| `Clock.VirtualClock.Unfreeze` | packages/core/src/time/clock.ts:125-133 | runs on from the very instant shown |
| `Clock.VirtualClock.Advance` | packages/core/src/time/clock.ts:137-144 | moves the clock's own instant by exactly the duration, frozen or not, and refuses a negative one |
| `Clock.VirtualClock.Set` | packages/core/src/time/clock.ts:146-155 | moves to the target in either mode, refusing to go back |
| `JobRuns.DrainsAgree` | packages/core/src/time/scheduler.ts:105-166 | any two orders that run a queue dry up to an instant execute the same jobs, attempts and instants and leave the same queue |
| `JobRuns.SplitAdvanceAgrees` | packages/core/src/time/clock.ts:99-107 | an advance split in two with a drain between runs what one advance runs |
| `JobRuns.RunsExactlyTheDueReachable` | packages/core/src/time/scheduler.ts:105-135 | whatever the handler, a dry run executes exactly the jobs that a chain of due follow-ups and retries leads to from the queue |
| `JobRuns.RunsExactlyTheReachable` | packages/core/src/time/scheduler.ts:105-120 | with a handler that schedules nothing before the instant it sees, these are the jobs reachable from the queue that are due |
| `JobRuns.ExecCommutes` | packages/core/src/time/scheduler.ts:111-118 | two queued jobs may run in either order |
| `Scheduler.Scheduler.Enqueue` | packages/storage/src/storage.ts:1839-1849 | a ready row at the end of the table, attempt zero |
| `Scheduler.Scheduler.ReclaimExpiredLeases` | packages/storage/src/storage.ts:1960-1968 | returns exactly the leased rows whose lease has run out |
| `Scheduler.Scheduler.EarliestDue` | packages/storage/src/storage.ts:1850-1889 | the first ready due row by instant and then enqueue order, and none only when none is due |
| `Scheduler.Scheduler.ClaimDue` | packages/storage/src/storage.ts:1850-1890 | leases the earliest ready due rows in order, no more than the batch, and fewer only when none is left due |
| `Scheduler.Scheduler.Retry` | packages/core/src/time/scheduler.ts:159-166 | fails a job at its last attempt and otherwise reschedules it one attempt on |
| `Scheduler.Scheduler.RunJob` | packages/core/src/time/scheduler.ts:137-157 | one execution replaces the job in the queue by its follow-ups and its next attempt |
| `Scheduler.Scheduler.Tick` | packages/core/src/time/scheduler.ts:105-120 | runs one claimed batch in order, each job at its own instant, leaving no lease outstanding; the new table is the old one with each job of the batch run on it |
| `Scheduler.Scheduler.Drain` | packages/core/src/time/scheduler.ts:126-135 | what it ran is a legal run of the queue, in rounds that each took the earliest due jobs, and unless bounded nothing due is left |
| `Scheduler.Scheduler.AdvanceAndDrain` | packages/core/src/time/scheduler.ts:85-87 | time moves by the duration and everything that came due has run |
| `Scheduler.DrainsAgreeWhateverTheBatch` | packages/core/src/time/scheduler.ts:105-135 | two drains of one queue agree whatever their batch sizes, rounds and earlier logs |
| `Scheduler.TwoAdvancesAgreeWithOne` | packages/core/src/time/scheduler.ts:83-87 | a scheduler advanced in two calls executes what one advanced in one call does, and leaves the same queue |
| `DueOrder.RoundFollowsExactlyWhen` | packages/core/src/time/scheduler.ts:110-118 | one batch comes after another exactly when every follow-up and every retry that the handler asks for on the earlier one comes behind its last job: the later batch does not matter |
| `DueOrder.DrainInOrderExactlyWhen` | packages/core/src/time/scheduler.ts:110-135 | a drain executes in due order exactly when every batch but its last keeps that, a condition on the rows claimed and the handler |
| `DueOrder.CompleteDrainInOrderExactlyWhen` | packages/core/src/time/scheduler.ts:126-135 | for a drain that leaves nothing due, exactly when every batch does |
| `DueOrder.OneAtATimeInOrderExactlyWhen` | packages/core/src/time/scheduler.ts:105-135 | known before the call: with a batch size of one, a drain that ends is in due order exactly when every due job that the queue and the handler lead to asks for follow-ups no earlier than itself and retries later |
| `DueOrder.PatientOneAtATimeIsInOrder` | packages/core/src/time/scheduler.ts:105-135 | so with a batch size of one, follow-ups that are never early and retries that are always later, every drain is in due order |
| `DueOrder.NothingNewIsInOrder` | packages/core/src/time/scheduler.ts:105-135 | known before the call: when nothing that a due job of the queue asks for is due by the instant, a drain is in due order for every batch size |
| `DueOrder.FollowUpOvertaken` | packages/core/src/time/scheduler.ts:110-118 | of two jobs in one batch due at 10 and 20, the follow-up of the first, due at 12, runs after the second |
| `Retrying.BackoffDoublesToAMinute` | packages/core/src/time/scheduler.ts:181-184 | the waits of a thrown job are 1, 2, 4, 8, 16 and 32 seconds and then a minute each |
| `Retrying.RunsWhatHasComeDue` | packages/core/src/time/scheduler.ts:105-166 | a job whose handler always ends the same way, drained until nothing is due, has run exactly the attempts that have come due, each one wait after the one before it, and is over exactly when it has run all it is allowed |
| `Retrying.ThrownUntilSpent` | packages/core/src/time/scheduler.ts:153-166 | so a handler that throws every time, given time enough, runs exactly `maxAttempts` times |
| `Retrying.FollowUpsRunToo` | packages/core/src/time/scheduler.ts:137-157 | what a handler asks for runs too when it comes due, whether or not the handler then fails |
| `Retrying.UnhandledAsksForNothing` | packages/core/src/time/scheduler.ts:137-143 | a job of a kind nobody handles ends with its only run and asks for nothing |
| `Scheduler.RunsAtMostMaxAttempts` | packages/core/src/time/scheduler.ts:159-166 | without expired leases a job's handler runs at most `maxAttempts` times |
| `Scheduler.ClaimedInOrder` | packages/storage/src/storage.ts:1883-1889 | a claimed batch executes by due time, enqueue order breaking ties |
| `Scheduler.NoneDueIsQuiet` | packages/core/src/time/scheduler.ts:129-130 | a tick that finds nothing means nothing ready is due |
| `Calendar.MonthLengthBounds` | packages/core/src/time/recurrence.ts:68-70 | every month has 28 to 31 days, and February 29 exactly in leap years |
| `Calendar.MonthLengths` | packages/core/src/time/recurrence.ts:68-70 | every month of every year has the days it has |
| `Calendar.TheEpoch` | packages/core/src/time/recurrence.ts:36-36 | the count of days starts with the first of January 1970 |
| `Calendar.FourCenturies` | packages/core/src/time/recurrence.ts:68-70 | every four centuries take 146 097 days |
| `Calendar.MonthIsUnique` | packages/core/src/time/recurrence.ts:58-63 | an instant falls in exactly one month and has one date in it |
| `Calendar.InstantIsThere` | packages/core/src/time/recurrence.ts:62-64 | an instant set to a month and a date of it shows that month, date and time of day |
| `Recurrence.AddDays` | packages/core/src/time/recurrence.ts:46-49 | setting the date past the month's end adds exactly that many days |
| `Recurrence.AddMonths` | packages/core/src/time/recurrence.ts:52-65 | through the first of the month, the target month with the day clamped to it |
| `Recurrence.AddInterval` | packages/core/src/time/recurrence.ts:35-66 | one period after an instant; what each period is, the next rows say |
| `Recurrence.DaysAndWeeks` | packages/core/src/time/recurrence.ts:22-50 | for every instant a daily period is 86 400 000 ms and a weekly one 604 800 000 ms, on the same weekday at the same time, times the count, which reads as one unless it is positive |
| `Recurrence.SevenDaysAreAWeek` | packages/core/src/time/recurrence.ts:22-50 | seven daily periods are one weekly one |
| `Recurrence.MonthsOn` | packages/core/src/time/recurrence.ts:16-65 | for every instant a monthly, biannual or annual period lands 1, 6 or 12 calendar months on, times the count, on the same day or the last of that month, at the same time |
| `Recurrence.YearsOn` | packages/core/src/time/recurrence.ts:16-65 | an annual period keeps month and date, but for the 29th of February in a common year |
| `Recurrence.SixMonthsAreHalfAYear` | packages/core/src/time/recurrence.ts:52-65 | six monthly periods are one biannual one exactly when no month between is too short for the day it lands on |
| `Recurrence.TwoHalvesAreAYear` | packages/core/src/time/recurrence.ts:52-65 | two biannual periods are one annual one, under the same condition |
| `Recurrence.UpToThe28thPeriodsDivide` | packages/core/src/time/recurrence.ts:52-65 | which always holds from a day up to the 28th |
| `Recurrence.NextIsLater` | packages/core/src/time/recurrence.ts:35-66 | a period always ends strictly later |
| `Recurrence.IteratedMonths` | packages/core/src/time/recurrence.ts:52-65 | k periods land exactly k times as many months on, the day clamped on the way, at the same time of day |
| `Recurrence.ClampedIsTheLeast` | packages/core/src/time/recurrence.ts:64 | the day landed on is the least of the start day and the lengths of every month landed on |
| `Recurrence.IteratedDays` | packages/core/src/time/recurrence.ts:45-50 | k day-based periods are k times as many days |
| `Recurrence.StepsCompose` | packages/core/src/time/recurrence.ts:58-65 | from a day up to the 28th, month steps compose additively |
| `Recurrence.ClampingIsSticky` | packages/core/src/time/recurrence.ts:64 | from the 31st of January they do not: a short month leaves its mark |
| `Recurrence.IteratesIncrease` | packages/core/src/time/recurrence.ts:35-66 | successive due dates strictly increase |
| `Recurrence.PeriodsBetween` | packages/core/src/time/recurrence.ts:73-87 | the least number of periods that reaches the end, capped at 10 000 |
| `Subscriptions.SubscriptionRunner.CancelGroup` | packages/storage/src/storage.ts:1917-1925 | cancels every queued job of the subscription, of either kind |
| `Subscriptions.SubscriptionRunner.TransitionSubscription` | packages/core/src/engine.ts:2339-2386 | moves by the table, keeps or clears the due date, and cancels the jobs of a subscription left without one |
| `Subscriptions.SubscriptionRunner.TransitionInvoice` | packages/core/src/engine.ts:2527-2564 | moves one invoice by its table |
| `Subscriptions.SubscriptionRunner.FindInvoiceForPeriod` | packages/simulator/src/subscriptions.ts:259-262 | the invoice whose period starts at the due date, and none only if there is none |
| `Subscriptions.SubscriptionRunner.CompleteIfLimitReached` | packages/simulator/src/subscriptions.ts:270-275 | stops exactly when a positive limit is used up |
| `Subscriptions.SubscriptionRunner.RaiseInvoice` | packages/simulator/src/subscriptions.ts:220-257 | a pending invoice for one interval from the due date, counted |
| `Subscriptions.SubscriptionRunner.MoveToAttention` | packages/simulator/src/subscriptions.ts:277-282 | to `attention` with the due date kept, once |
| `Subscriptions.SubscriptionRunner.Schedule` | packages/simulator/src/subscriptions.ts:314-335 | the charge at its due date or at once, and the invoice ahead of it when there is time |
| `Subscriptions.SubscriptionRunner.Begin` | packages/simulator/src/subscriptions.ts:99-103 | schedules the first cycle of a subscription that has a due date |
| `Subscriptions.SubscriptionRunner.AdvanceToNextCycle` | packages/simulator/src/subscriptions.ts:284-312 | completes at the limit, or opens the next period from the due date |
| `Subscriptions.SubscriptionRunner.HandleInvoiceJob` | packages/simulator/src/subscriptions.ts:134-147 | raises at most one invoice for a period of a renewable subscription |
| `Subscriptions.SubscriptionRunner.DebitInvoice` | packages/simulator/src/subscriptions.ts:177-215 | charges the invoice, records the outcome on it, and opens the next cycle unless no instrument is stored |
| `Subscriptions.SubscriptionRunner.HandleChargeJob` | packages/simulator/src/subscriptions.ts:150-216 | converts a trial, bills the period once and charges it |
| `Billing.RunsStaySound` | packages/simulator/src/subscriptions.ts:134-335 | whatever is claimed, run, declined or stopped from outside, jobs, invoices, charges and window stay in step with the due dates |
| `Billing.OneInvoiceAPeriod` | packages/simulator/src/subscriptions.ts:142-146 | at most one invoice a period, back to back from the first due date, and never more than the limit |
| `Billing.ChargesFollowTheCalendar` | packages/simulator/src/subscriptions.ts:298-311 | the k-th charge is for the k-th invoice, due at the k-th iterate of the interval, made then or at the start, and never twice |
| `Billing.TheScheduleIsTheCalendar` | packages/simulator/src/subscriptions.ts:314-335 | one charge job a due date, never early, and its invoice job the lead ahead of it exactly when the cycle was opened with more time than that |
| `Billing.TheWindowIsOnePeriod` | packages/simulator/src/subscriptions.ts:301-310 | after a renewal the next payment date is one interval after the current period's start |
| `Billing.LeftAloneItChargesToTheLimit` | packages/simulator/src/subscriptions.ts:270-312 | with an instrument and positive invoices, `completed` comes exactly with the limit-th charge; until then a charge is due, each invoice shows how its charge went, and `attention` means one was declined |
| `Billing.OpensTheNextCycleExactlyWhen` | packages/simulator/src/subscriptions.ts:150-216 | in every run, stops and zero amounts included, a charge job opens the next cycle exactly when the subscription renews, an instrument is stored, there is something to bill and the limit is not used up; without an instrument or with nothing to bill the chain stops with the subscription still renewing |
| `Billing.LimitedRunsEnd` | packages/simulator/src/subscriptions.ts:293-296 | under a limit no run does more than four things a cycle, so every run ends |
| `Dunning.RenewsUntilStopped` | packages/core/src/state-machine.ts:228-230 | a subscription renews in every status but `non_renewing`, `completed` and `cancelled` |
| `Dunning.EveryChargeLeaves` | packages/simulator/src/subscriptions.ts:150-216 | in every run, what one charge leaves: without an instrument the invoice fails, the subscription needs attention and nothing more is scheduled; a charge that settles or is declined is recorded with its period, its instant and its amount, shows on the invoice and the subscription, and opens the next period or completes at the limit; with nothing owed nothing happens |
| `Dunning.InvoiceJobLeaves` | packages/simulator/src/subscriptions.ts:134-147 | an invoice job raises one invoice for its period ahead of the charge, completes a subscription at its limit, or does nothing |
| `Dunning.StopsAtOnce` | packages/core/src/engine.ts:2339-2386 | stopping clears the due date and every job still queued and nothing else, and no other transition does |
| `Dunning.StoppedForGood` | packages/simulator/src/subscriptions.ts:134-216 | from then on, unless resumed, nothing is ever raised, charged or scheduled again, by a job in hand either |
| `InvoiceEngine.InvoiceBook.ListPending` | packages/storage/src/storage.ts:1175-1196 | exactly the lines waiting for this customer and subscription, or unattached |
| `InvoiceEngine.InvoiceBook.Total` | packages/storage/src/storage.ts:1212-1221 | the sum of everything on an invoice |
| `InvoiceEngine.InvoiceBook.SweepPending` | packages/core/src/engine.ts:2483-2493 | attaches every waiting line and touches no other |
| `InvoiceEngine.InvoiceBook.SumItems` | packages/core/src/engine.ts:208-213 | the sum of the drafts, each as `Invoicing.RaisedLinesSay` says |
| `InvoiceEngine.InvoiceBook.CreateInvoice` | packages/core/src/engine.ts:2401-2525 | raises a draft, or a pending invoice with the waiting lines swept, totalled and counted; `Invoicing.RaisedForItsUnits` says what it comes to |
| `Invoicing.RaisedForItsUnits` | packages/core/src/engine.ts:208-213 | in every reachable state an invoice raised from lines by the unit comes to the sum of unit amount times quantity, and unless it is a draft to what waited for it, floored at zero |
| `Invoicing.UnitsAddUp` | packages/core/src/engine.ts:208-213 | one line of some units bills what two lines share of them bill |
| `Invoicing.RaisedLinesSay` | packages/core/src/engine.ts:2709-2735 | a line is worth its own amount first, else its units, of which there is one unless it says, and takes what else it leaves out from the invoice |
| `Invoicing.AddedLineSays` | packages/core/src/engine.ts:2627-2667 | and so is one added to a draft; one added on its own waits, in dollars unless it says |
| `Invoicing.RaisedForItsPayer` | packages/core/src/engine.ts:2401-2470 | who pays an invoice, in what currency, and what raising it counts; exactly when it is refused |
| `Invoicing.DraftWithoutLines` | packages/core/src/engine.ts:2442-2470 | a draft with no lines keeps what was asked for, or else what its subscription costs |
| `InvoiceEngine.InvoiceBook.FinalizeInvoice` | packages/core/src/engine.ts:2573-2618 | sweeps, totals and opens a draft or a failed invoice |
| `InvoiceEngine.InvoiceBook.TransitionInvoice` | packages/core/src/engine.ts:2527-2564 | moves one invoice by its table and nothing else |
| `InvoiceEngine.InvoiceBook.AddInvoiceItem` | packages/core/src/engine.ts:2627-2667 | adds a line to a draft and retotals it, or leaves it waiting; no other invoice is editable |
| `InvoiceEngine.InvoiceBook.DeleteInvoiceItem` | packages/core/src/engine.ts:2670-2688 | removes a line of a draft or a waiting one, and retotals |
| `Invoicing.WaitingLineJoinsExactlyWhen` | packages/storage/src/storage.ts:1175-1196 | a waiting line joins an invoice that is opened exactly when it is the customer's and not another subscription's |
| `Invoicing.FinalizedExactlyWhen` | packages/core/src/engine.ts:2573-2618 | an invoice is finalized exactly from a draft or after a failed attempt |
| `Invoicing.TransitionMovesOneInvoice` | packages/core/src/engine.ts:2527-2564 | a transition writes one status and nothing else |
| `Invoicing.AddedToItsDraft` | packages/core/src/engine.ts:2627-2667 | adding a line to a draft raises what it comes to by that line, and nothing but a draft takes one |
| `Invoicing.DeletedFromItsDraft` | packages/core/src/engine.ts:2670-2688 | deleting one lowers it by that line |
| `Invoicing.OpenedInvoicesAreFolds` | packages/core/src/engine.ts:2483-2498 | in every run, from the moment an invoice is opened its amount is what its lines come to, floored at zero, whatever happens next |
| `Invoicing.NewInvoiceIsFolded` | packages/core/src/engine.ts:2442-2498 | in every reachable state a new invoice's amount is that fold unless it is a draft with an amount asked for and no lines |
| `Invoicing.StepKeepsFolded` | packages/core/src/engine.ts:2695-2698 | no operation breaks the fold of any invoice |
| `Invoicing.LinesJoinOneInvoice` | packages/storage/src/storage.ts:1175-1196 | a waiting line joins at most one invoice, of its own customer and not of another subscription, and never leaves it |
| `Invoicing.SweepConserves` | packages/core/src/engine.ts:2579-2590 | a sweep adds to the invoice exactly what waited, leaves nothing waiting and no customer's total changed |
| `Invoicing.OpeningBillsWhatWaited` | packages/core/src/engine.ts:2573-2618 | a finalized invoice comes to its own lines and exactly what waited for it |
| `Invoicing.BillingConserves` | packages/core/src/engine.ts:2527-2618 | finalizing and every status change leave a customer's lines worth what they were |
| `Invoicing.RaisingAddsItsLines` | packages/core/src/engine.ts:2474-2493 | raising an invoice adds its own lines and nothing else |
| `Invoicing.FinalizedInOneCurrencyExactlyWhen` | packages/storage/src/storage.ts:1175-1196 | a finalized invoice adds up lines of one currency exactly when its own lines and all that waited were in it: the sweep does not look |
| `Invoicing.RaisedInOneCurrencyExactlyWhen` | packages/core/src/engine.ts:2474-2493 | in every reachable state, the same of one raised as pending |
| `Invoicing.DollarsBilledAsEuros` | packages/core/src/engine.ts:2718 | a line added without a currency waits in dollars, and joins an invoice in euros at its face amount |
| `Invoicing.IssuedAmountsHold` | packages/core/src/engine.ts:2630-2636 | only a draft is edited, and only a failed invoice finalized again takes more |
| `Invoicing.ClosedInvoicesNeverChange` | packages/core/src/state-machine.ts:140-147 | a paid or voided invoice never changes again |
| `InvoiceEngine.SubscriptionEditor.FindMatch` | packages/core/src/engine.ts:2189-2191 | the first item of the snapshot that an entry names, by id or else by plan |
| `InvoiceEngine.SubscriptionEditor.AbsorbWanted` | packages/core/src/engine.ts:2185-2231 | inserts, updates and keeps rows and drafts the lines, or fails as the first bad entry does |
| `InvoiceEngine.SubscriptionEditor.DeleteUnmatched` | packages/core/src/engine.ts:2233-2242 | deletes what nobody named and credits it |
| `InvoiceEngine.SubscriptionEditor.UpdateSubscriptionItems` | packages/core/src/engine.ts:2143-2291 | the whole change or none of it, with its lines |
| `InvoiceEngine.SubscriptionEditor.DraftRenewal` | packages/simulator/src/subscriptions.ts:228-244 | one line a price: the plan's amount by the unit, as many as the item has |
| `InvoiceEngine.RaiseRenewal` | packages/simulator/src/subscriptions.ts:220-257 | raises the invoice of one period from those lines, or without any for the stored amount |
| `Proration.RemainingFraction` | packages/core/src/engine.ts:2330-2337 | the share of the period still to run, always within 0 and 1 |
| `Proration.FractionIsTheTimeLeft` | packages/core/src/engine.ts:2330-2337 | between start and end it is the time left over the time in all; up to the start 1, from the end on, or without a period, 0 |
| `Proration.FractionNeverGrows` | packages/core/src/engine.ts:2330-2337 | it never grows with the clock |
| `Proration.ShareIsNearest` | packages/core/src/engine.ts:2303-2304 | a share of a price is the nearest whole amount, a half going up |
| `Proration.UpdatedExactlyWhen` | packages/core/src/engine.ts:2143-2265 | with prices and quantities in order a change is accepted exactly when the subscription is open, every plan exists, something is asked for and nothing in a quantity of nothing |
| `Proration.ItemsAreWhatWasAsked` | packages/core/src/engine.ts:2185-2242 | with each item named at most once the items end as the entries ask, each its plan and quantity, and there is no other |
| `Proration.NamedItemsKeepTheirIds` | packages/core/src/engine.ts:2189-2231 | the item an entry names, by id or else by plan, ends as it asks under the id it had |
| `Proration.IdsStayApart` | packages/core/src/engine.ts:2193-2206 | over any changes the items keep ids of their own, and none is given out twice |
| `Proration.ItemsAreLastChanges` | packages/core/src/engine.ts:2189-2231 | every item of the snapshot ends as the last entry that rewrites it says |
| `Proration.LinesNet` | packages/core/src/engine.ts:2185-2242 | the lines of any update net to the change in worth plus, for every entry, what the entries before it made of its item less the snapshot's price of it; so to the change exactly when these, read off the snapshot and the entries, cancel |
| `Proration.MatchedOnceOverwritesNothing` | packages/core/src/engine.ts:2189-2191 | they are nothing when no two entries name one item |
| `Proration.LinesNetToTheChange` | packages/core/src/engine.ts:2185-2242 | with each item matched at most once they net to the change |
| `Proration.NamedTwiceDrifts` | packages/core/src/engine.ts:2189-2191 | an item named twice is credited twice at its old price, and the lines drift by what the first change was worth |
| `Proration.ProrationIsPathIndependent` | packages/core/src/engine.ts:2143-2318 | over any sequence of updates at one instant the lines net to the worth at the end less the worth at the start |
| `Proration.ChangeAndUndoCancel` | packages/core/src/engine.ts:2143-2318 | a change and its undo cancel to the last minor unit, with the items back in any order and under any ids |
| `Proration.SameShapesSameWorth` | packages/core/src/engine.ts:2293-2318 | what items are worth goes by their plans and quantities alone, as a multiset |
| `Proration.AmountIsTheSum` | packages/core/src/engine.ts:2252-2265 | the subscription's amount is positive and always the sum of plan amount times quantity over its items, written out, and the head item names its plan |
| `Proration.SeatsAddUp` | packages/core/src/engine.ts:2252-2265 | raising one quantity by d raises the amount by d times the plan's amount, and splitting an item's seats over two items leaves it |
| `Proration.WorthIsTheShareOfTheBill` | packages/core/src/engine.ts:2293-2318 | what items are worth is the share of what they cost, to within half a minor unit each |
| `Proration.LinesAreTheShareOfTheChange` | packages/core/src/engine.ts:2143-2337 | the lines of a change are the part of the period still to run, of the change in the amount: to within half a minor unit for each item before and after, exactly up to the period's start, and nothing from its end on |
| `Proration.LinesNeverExceedFullPrice` | packages/core/src/engine.ts:2293-2318 | each line is the rest of the period on an item given up or asked for, and never above its full price |
| `Proration.RaisedLinesWait` | packages/core/src/engine.ts:2279-2288 | the raised lines wait for this subscription's next invoice, all of them, and no other subscription's sees them |
| `Proration.RaisedLinesAreTheNonZero` | packages/core/src/engine.ts:2279-2288 | each line that is something is raised once, in order, for the customer and in the subscription's currency, and no other |
| `Proration.RenewalBillsTheAmount` | packages/simulator/src/subscriptions.ts:220-257 | in every reachable state a renewal comes to the stored amount and whatever waited for it |
| `Proration.RenewalAfterAChange` | packages/simulator/src/subscriptions.ts:220-257 | after a change the next renewal comes to the new amount, the net of the lines and whatever waited before, once each |
| `Dispatcher.WebhookDispatcher.Schedule` | packages/webhooks/src/dispatcher.ts:273-317 | a pending delivery with its allowance of attempts, and its first job |
| `Dispatcher.WebhookDispatcher.RecordAttempt` | packages/webhooks/src/dispatcher.ts:415-482 | the outcome on the row, and the next job only when another attempt is due, as `Webhooks.OneAttempt` says |
| `Dispatcher.WebhookDispatcher.DeliverNow` | packages/webhooks/src/dispatcher.ts:362-412 | one attempt of an open delivery, none of a final one, and a refusal when its endpoint is gone; `Webhooks.OneAttempt` says what an answer does |
| `Webhooks.OneAttempt` | packages/webhooks/src/dispatcher.ts:118-146 | one attempt by what came back: a status from 200 to 299 succeeds, and any other or none leaves one more job or exhausts; a provider that reads bodies can only refuse a 2xx, one that classifies owns the decision and alone can stop a delivery |
| `Webhooks.NoAttempt` | packages/webhooks/src/dispatcher.ts:362-386 | a delivery that has ended is left alone, and one whose endpoint is gone, where the provider minds, fails unsent |
| `Webhooks.WaitsItsRung` | packages/webhooks/src/retry.ts:11-25 | a further attempt waits the rung of the provider's own ladder, doubled from its base up to its cap and jittered, or flat, or not at all |
| `Webhooks.SucceedsExactlyWhenAnswered` | packages/webhooks/src/dispatcher.ts:118-146 | over any run without a manual retry a delivery of a provider without rules has succeeded exactly when one of its sends was answered with a status from 200 to 299 |
| `Webhooks.ExhaustedUnanswered` | packages/webhooks/src/dispatcher.ts:454-466 | from its creation: one that is exhausted made every send it was allowed, none of them answered so |
| `Webhooks.NewDelivery` | packages/webhooks/src/dispatcher.ts:273-317 | a new delivery has the attempts of its ladder, one with retries off, and no more than the caller asks for |
| `Webhooks.RetriedByHandIsSent` | packages/webhooks/src/dispatcher.ts:573-587 | a retry by hand makes one attempt at once, whatever the ladder says |
| `Webhooks.ReplayedAnew` | packages/webhooks/src/dispatcher.ts:600-632 | a replay is a delivery of its own, from the foot of the ladder |
| `Dispatcher.WebhookDispatcher.RetryByHand` | packages/webhooks/src/dispatcher.ts:573-587 | reopens a delivery with one more attempt and makes it |
| `Dispatcher.WebhookDispatcher.ReplayDelivery` | packages/webhooks/src/dispatcher.ts:600-632 | a new delivery of the same payload, if the endpoint still exists |
| `Webhooks.DelayBounds` | packages/webhooks/src/retry.ts:11-25 | a jittered delay is between half of its rung and all of it |
| `Webhooks.NewIsLaddered` | packages/webhooks/src/dispatcher.ts:273-317 | a new delivery stands at the foot of its ladder with one job |
| `Webhooks.LadderHolds` | packages/webhooks/src/dispatcher.ts:362-482 | over any run without a manual retry an open delivery has exactly one job, due one rung after its last send, and attempts left |
| `Webhooks.FinalIsFinal` | packages/webhooks/src/dispatcher.ts:365-374 | a final status is never left and never sent again, whatever jobs are still about |
| `Webhooks.ExhaustionTakesTheLadder` | packages/webhooks/src/dispatcher.ts:454-466 | no more sends than allowed; exhaustion takes them all, over a time between half and all of the rungs |
| `Webhooks.OneAdvanceFinishes` | packages/webhooks/src/dispatcher.ts:468-481 | once attempted, a delivery drained past the sum of its rungs is finished |
| `Webhooks.CreatedIsFinishedInTime` | packages/webhooks/src/dispatcher.ts:362-482 | from its creation, attempted yet or not, a delivery with nothing due at an instant its whole ladder past its first job is finished |
| `Webhooks.TheDefaultLadder` | packages/webhooks/src/retry.ts:27-35 | by default at most five sends, and an exhausted delivery made five within 7.5 to 15 seconds |
| `Webhooks.EachManualRetryGrantsOneSend` | packages/webhooks/src/dispatcher.ts:573-587 | each manual retry, however it falls, grants one more send and no more |
| `Random.StepIsABijection` | packages/shared/src/random.ts:67-78 | the step has an inverse on all 128-bit states |
| `Random.OnlyZeroGoesToZero` | packages/shared/src/random.ts:59-60 | only the zero state leads to the zero state |
| `Random.StreamsNeverMerge` | packages/shared/src/random.ts:67-78 | streams from two states stay different, and a live one never dies |
| `Random.NoSeedIsDead` | packages/shared/src/random.ts:55-64 | no seed ever reaches the zero state |
| `Random.HashesAsPublished` | packages/shared/src/random.ts:30-37 | the hash has the published values of FNV-1a |
| `Random.ZeroHashExpands` | packages/shared/src/random.ts:40-49 | the four words that a hash of zero expands to |
| `Random.DrawsAsPublished` | packages/shared/src/random.ts:66-78 | the words of the reference implementation from the state 1, 2, 3, 4 |
| `Random.EveryWordIsDrawn` | packages/shared/src/random.ts:69 | each value of a state's second word yields a different word, whatever the others |
| `Random.FractionIsExact` | packages/shared/src/random.ts:80-86 | a fraction tells the two parts it is made of |
| `Random.PartsOfTwoWords` | packages/shared/src/random.ts:83-84 | the top 27 bits of one word and the top 26 of another |
| `Random.Xoshiro128.constructor` | packages/shared/src/random.ts:55-64 | the seed hashed, expanded, nudged and sixteen draws on, and not zero |
| `Random.Xoshiro128.Raw` | packages/shared/src/random.ts:67-78 | one word and one step, never to zero |
| `Random.Xoshiro128.Next` | packages/shared/src/random.ts:80-86 | the fraction of two draws, in [0, 1) |
| `Random.Xoshiro128.Int` | packages/shared/src/random.ts:88-91 | a whole number within both bounds, and refused exactly when they are the wrong way round |
| `JsonText.QuoteIsUnique` | apps/api/src/idempotency.ts:104 | a quoted string says which string it is, whatever follows it, escapes and lone surrogates included |
| `JsonNumbers.NumberTextIsUnique` | apps/api/src/idempotency.ts:104 | two finite numbers with one text are one number |
| `JsonReading.QuoteReadsBack` | apps/api/src/idempotency.ts:104 | a quoted string, read as RFC 8259 says, is the string it was, and leaves what follows it |
| `JsonReading.PlainExactlyWhen` | apps/api/src/idempotency.ts:104 | only controls, quotes, backslashes and unpaired surrogates are escaped |
| `JsonReading.EscapesInLowerCase` | apps/api/src/idempotency.ts:104 | an escape by number has four digits, in lower case |
| `JsonReading.NumberReadsBack` | apps/api/src/idempotency.ts:104 | the text of a finite number, read as RFC 8259 says, has its sign and its value |
| `JsonReading.ExponentExactlyWhen` | apps/api/src/idempotency.ts:104 | it has an exponent exactly below a millionth and from ten to the 21st on |
| `CanonicalJson.TextTellsValue` | apps/api/src/idempotency.ts:103-110 | unique decodability: a text with any legal continuation gives back the value and the continuation |
| `CanonicalJson.SameHasOneText` | apps/api/src/idempotency.ts:106-109 | values that are the same up to key order have one text |
| `CanonicalJson.StableIsExact` | apps/api/src/idempotency.ts:103-110 | equal texts exactly for values equal up to key order |
| `CanonicalJson.SameIsAnEquivalence` | apps/api/src/idempotency.ts:102-110 | being equal up to key order is an equivalence |
| `CanonicalJson.SortOrders` | apps/api/src/idempotency.ts:106-108 | the entries end in strict code-unit order of their keys |
| `CanonicalJson.LessExactlyWhen` | apps/api/src/idempotency.ts:106-108 | one key comes before another exactly when it ends first or has the smaller unit where they first differ |
| `CanonicalJson.WordsAsWritten` | apps/api/src/idempotency.ts:103-105 | null, true, false, and an empty array and object, as they are written |
| `CanonicalJson.ItemsAsWritten` | apps/api/src/idempotency.ts:105 | items stand in brackets with a comma between them |
| `CanonicalJson.MembersAsWritten` | apps/api/src/idempotency.ts:106-109 | members stand in braces in the order of their keys, whichever way round they came |
| `Idempotency.PreImageIsExact` | apps/api/src/idempotency.ts:96-100 | two requests digest one text exactly when method, target and body are the same |
| `Idempotency.NoBodyReadsAsNull` | apps/api/src/idempotency.ts:104 | a request without a body digests as one whose body is null |
| `Idempotency.IdempotencyPlugin.PreHandler` | apps/api/src/idempotency.ts:33-58 | executes, replays or refuses, and remembers what an admitted request is for |
| `Idempotency.IdempotencyPlugin.OnSend` | apps/api/src/idempotency.ts:60-79 | keeps a successful string response under its key, once, and answers with an error when the key has been taken |
| `Idempotency.StoredForGood` | packages/storage/src/storage.ts:1989-2001 | a stored response is never lost or replaced, however requests overlap |
| `Idempotency.ReplayIsExact` | apps/api/src/idempotency.ts:39-58 | from then on the same request is answered with it byte for byte and any other request with a conflict |
| `Idempotency.FailuresAreNotKept` | apps/api/src/idempotency.ts:63-65 | a failed response keeps nothing |
| `Idempotency.OnlyKeyedWritesAreKept` | apps/api/src/idempotency.ts:33-79 | a read, or a request without a key, is never looked up and leaves nothing; of any other a first success with a text is kept as it was answered |
| `Idempotency.FailsExactlyWhenOvertaken` | packages/storage/src/storage.ts:1989-2001 | an admitted request that succeeds is answered with an error exactly when another response was kept under its key since it was admitted |
| `Idempotency.OverlappingRequestsBothRun` | apps/api/src/idempotency.ts:39-44 | until a response is kept, two requests under one key both run; one response is kept, the late success is answered with an error, and the key then replays the first |
| `Splits.ComputeSplit` | packages/core/src/engine.ts:3131-3143 | the parts are never negative and with the merchant's remainder always make up the amount |
| `Splits.PercentagesAreFloors` | packages/core/src/engine.ts:3131-3143 | percentages up to the whole are never capped: each part is the floor of its share, wherever it stands |
| `Splits.EachGetsItsPercentage` | packages/core/src/engine.ts:3131-3143 | each entry of an accepted percentage split gets so many hundredths of the amount, less the part of a minor unit |
| `Splits.CreatedExactlyWhen` | packages/core/src/engine.ts:3095-3105 | a split is refused exactly when it is empty, or of percentages that come to more than a hundred |
| `Splits.EqualSharesTotal` | packages/core/src/engine.ts:3098 | the total is every share once |
| `Splits.NoMoreThanIsLeft` | packages/core/src/engine.ts:3138-3139 | no entry gets less than nothing, or more than the earlier ones left |
| `Splits.MerchantGainsUnderOneEach` | packages/core/src/engine.ts:3095-3102 | under an accepted percentage split rounding gives the merchant less than one minor unit an entry |
| `Splits.FlatSharesTakeAllOrWhatTheyAsk` | packages/core/src/engine.ts:3127-3143 | flat shares together take what they ask or all there is |
| `Splits.FlatSharesArePaidInFull` | packages/core/src/engine.ts:3127-3143 | when there is enough, each flat share is paid in full |

## Left out

- Providers, HTTP, the event bus, payload contents, the dashboard and the command line: translation and presentation.
- References and provider codes, and the refusal of a duplicate one; ids are places in a table.
- Supported-currency checks and upper-casing; a book is a provider and a currency as given.
- Customers, authorizations and their minting, instrument setups, dedicated accounts, products, plans, subaccount
  onboarding and `recordEvent`: they move no money and their log entries follow the same rule.
- Amounts are whole minor units; fractions, percentages and jitter are exact reals where the code has doubles.
- Ledger reasons that only an adapter writes are kept apart as `External` rows.
- Rows created at the same instant are taken in insertion order where the code breaks the tie by id.
- Instants outside the range of an ECMA-262 time value, and dates that do not parse.
- The clock's listeners, and a wall clock that moves during one operation.
- Leases that expire while their batch is running, handlers that cancel other jobs, and the poll timer.
- Scheduler.Scheduler.ReclaimExpiredLeases: it is modelled in full, but the drain theorems start from a table without outstanding leases.
- JobRuns.RunsExactlyTheDueReachable: a handler is a function of the job and the instant it sees; handlers that read other state are not covered by the confluence results.
- A `fee` in a transfer's metadata that is not a whole number; one that is no number at all makes the release NaN, and nothing is given back.
- Settlement.SettledExactlyOnce: runs with a simulated reversal of the payment are excluded; `Settlement.SettlementsCounted` counts the settlements of every run.
- Solvency.NeverOverdrawn: the operations the code does not check are not among its own; `Solvency.NeverOverdrawnExactlyWhen` covers them, by what each draws.
- The provider of an invoice and of its lines, and the refusal of an invoice that has none.
- The status and body of the error that a failed insert of an idempotency key is answered with.
- Resuming a stopped subscription, which starts a second chain of jobs, and changing its plan or interval during a run.
- Billing.RunsStaySound: a job handler is one step, the amount of a raised invoice is any number (`Proration.RenewalBillsTheAmount` says which), and an invoice is not paid or voided from outside while its charge is pending.
- Trial warnings, which only announce.
- The order in which lines are printed on an invoice (`position`), invoice numbers, attempt counts and dates of payment.
- `always_invoice`: the adapter finalizes; the lines are the same as for `create_prorations`.
- The headers, signatures and transport of a webhook, and the matching of events to endpoints: a response is any status and body, a verdict any function of it.
- Webhooks.LadderHolds: the retry policies are fixed during a run.
- SHA-256: two requests are compared by the text that is digested.
- Bodies that are not JSON values, and objects with a repeated key, which a parsed body cannot have.
- `hex`, `pick`, `chance` and `fork` of the generator.
