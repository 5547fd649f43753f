/** The payment engine itself: tables updated in place, each operation one transaction. */
module Engine {
  import opened Options
  import opened StateMachine
  import opened Storage
  import opened EngineSpec

  datatype Outcome = Done | Refused(error: Error)

  class PaymentEngine {
    const config: Config
    var payments: seq<Payment>
    var refunds: seq<Refund>
    var transfers: seq<Transfer>
    var disputes: seq<Dispute>
    var ledger: seq<Row>
    var events: seq<Event>
    var sequences: map<Id, nat>

    constructor (config: Config)
      ensures this.config == config && Tables() == EMPTY
    {
      this.config := config;
      payments, refunds, transfers, disputes := [], [], [], [];
      ledger, events, sequences := [], [], map[];
    }

    function Tables(): State
      reads this
    {
      State(payments, refunds, transfers, disputes, ledger, events, sequences)
    }

    /** The tables hold what was expected, or the call was refused for the expected reason. */
    ghost predicate Gives(r: Outcome, expected: Result<State>)
      reads this
    {
      match expected
      case Ok(s) => r == Done && Tables() == s
      case Err(e) => r == Refused(e)
    }

    /* ---------------------------- storage ---------------------------- */

    method AppendEvent(id: Id, previous: Option<Status>, current: Option<Status>)
      modifies this`events, this`sequences
      ensures Tables() == old(Tables()).Append(id, previous, current)
    {
      var sequence := 1;
      if id in sequences {
        sequence := sequences[id] + 1;
      }
      sequences := sequences[id := sequence];
      events := events + [Event(id, sequence, previous, current)];
    }

    /** The insert, and the positivity check of the ledger table. */
    method AppendLedger(row: Row) returns (r: Outcome)
      modifies this`ledger
      ensures Gives(r, PostRows(old(Tables()), [row]))
    {
      if row.amount <= 0 {
        assert row in [row];
        return Refused(ConstraintFailed);
      }
      ledger := ledger + [row];
      return Done;
    }

    method AppendLedgerPair(first: Row, second: Row) returns (r: Outcome)
      modifies this`ledger
      ensures Gives(r, PostRows(old(Tables()), [first, second]))
    {
      ghost var rows := [first, second];
      assert first in rows && second in rows;
      r := AppendLedger(first);
      if r.Refused? { return; }
      r := AppendLedger(second);
      assert old(ledger) + rows == old(ledger) + [first] + [second];
    }

    method Rollback(saved: State)
      modifies this
      ensures Tables() == saved
    {
      payments, refunds, transfers, disputes := saved.payments, saved.refunds, saved.transfers, saved.disputes;
      ledger, events, sequences := saved.ledger, saved.events, saved.sequences;
    }

    /* ---------------------------- payments ---------------------------- */

    method CreatePayment(book: Book, amount: int, status: PaymentStatus, subaccount: Owner,
                         mode: SettlementMode, fee: int) returns (r: Outcome)
      modifies this
      ensures Gives(r, CreatePaymentStep(old(Tables()), book, amount, status, subaccount, mode, fee))
    {
      if amount <= 0 { return Refused(ValidationFailed); }
      payments := payments + [Payment(book, amount, status, 0, subaccount, mode, Max0(fee), 0)];
      AppendEvent(PaymentId(|payments| - 1), None, Some(OfPayment(status)));
      return Done;
    }

    method TransitionPayment(i: nat, to: PaymentStatus, reversal: bool, retry: bool) returns (r: Outcome)
      modifies this
      ensures Gives(r, TransitionPaymentStep(old(Tables()), i, to, reversal, retry))
    {
      if i >= |payments| { return Refused(NotFound); }
      var payment := payments[i];
      if !PaymentMoves(payment.status, to, reversal, retry) { return Refused(InvalidTransition); }
      payments := payments[i := payment.(status := to)];
      AppendEvent(PaymentId(i), Some(OfPayment(payment.status)), Some(OfPayment(to)));
      if to != PaymentStatus.Successful { return Done; }
      r := Collect(i, payment);
      if r.Refused? { return; }
      var share := ForwardedShare(payment);
      if IsForwarded(payment) && share > 0 {
        r := InsertAndReserve(ForwardingTransfer(i, payment), 0, false);
      }
    }

    /** Credit a settled payment: to the participant and the platform, or wholly to the platform. */
    method Collect(i: nat, payment: Payment) returns (r: Outcome)
      modifies this`ledger
      ensures Gives(r, PostRows(old(Tables()), ChargeRows(i, payment)))
    {
      if payment.mode == Direct && payment.subaccount.Some? {
        var fee := if payment.platformFee < payment.amount then payment.platformFee else payment.amount;
        var share := Row(Pot(payment.book, payment.subaccount), true, payment.amount - fee, Charge, Some(PaymentId(i)));
        if fee > 0 {
          r := AppendLedgerPair(share, Row(Pot(payment.book, None), true, fee, ApplicationFee, Some(PaymentId(i))));
        } else {
          r := AppendLedger(share);
        }
      } else {
        r := AppendLedger(Row(Pot(payment.book, None), true, payment.amount, Charge, Some(PaymentId(i))));
      }
    }

    /* ---------------------------- refunds ---------------------------- */

    method CreateRefund(i: nat, requested: Option<int>, status: RefundStatus) returns (r: Outcome)
      modifies this
      ensures Gives(r, CreateRefundStep(old(Tables()), i, requested, status))
    {
      if i >= |payments| { return Refused(NotFound); }
      var payment := payments[i];
      if payment.status != PaymentStatus.Successful && payment.status != PartiallyRefunded {
        return Refused(InvalidTransition);
      }
      var already := TotalRefunded(refunds, i);
      var amount := if requested.Some? then requested.value else payment.amount - already;
      if amount <= 0 { return Refused(ValidationFailed); }
      if amount > payment.amount - already { return Refused(RefundExceedsAmount); }
      refunds := refunds + [Refund(i, payment.book, amount, status)];
      AppendEvent(RefundId(|refunds| - 1), None, Some(OfRefund(status)));
      return Done;
    }

    method TransitionRefund(k: nat, to: RefundStatus) returns (r: Outcome)
      modifies this
      ensures Gives(r, TransitionRefundStep(old(Tables()), k, to))
    {
      if k >= |refunds| { return Refused(NotFound); }
      var refund := refunds[k];
      if !RefundMoves(refund.status, to) { return Refused(InvalidTransition); }
      refunds := refunds[k := refund.(status := to)];
      AppendEvent(RefundId(k), Some(OfRefund(refund.status)), Some(OfRefund(to)));
      if to != RefundStatus.Successful { return Done; }

      var i := refund.payment;
      if i >= |payments| { return Refused(NotFound); }
      var payment := payments[i];
      var total := TotalRefunded(refunds, i);
      var next := RefundedStatus(payment.amount, total);
      if !PaymentMoves(payment.status, next, false, false) { return Refused(InvalidTransition); }
      payments := payments[i := payment.(status := next, amountRefunded := total)];
      AppendEvent(PaymentId(i), Some(OfPayment(payment.status)), Some(OfPayment(next)));
      hide TotalRefunded;
      r := AppendLedger(RefundRow(k, refund, payment));
    }

    /* ---------------------------- transfers ---------------------------- */

    method InsertAndReserve(transfer: Transfer, fee: int, toPlatform: bool) returns (r: Outcome)
      modifies this
      ensures Gives(r, InsertReserved(old(Tables()), transfer, fee, toPlatform))
    {
      var t := |transfers|;
      transfers := transfers + [transfer];
      var out := Row(Pot(transfer.book, transfer.source), false, transfer.amount + fee, TransferMade, Some(TransferId(t)));
      if transfer.destination.Some? || toPlatform {
        r := AppendLedgerPair(out, Row(Pot(transfer.book, transfer.destination), true, transfer.amount,
                                       TransferMade, Some(TransferId(t))));
      } else {
        r := AppendLedger(out);
      }
      if r.Refused? { return; }
      AppendEvent(TransferId(t), None, Some(OfTransfer(transfer.status)));
    }

    method CreateTransfer(input: TransferInput) returns (r: Outcome)
      modifies this
      ensures Gives(r, CreateTransferStep(config, old(Tables()), input))
    {
      if input.amount <= 0 { return Refused(ValidationFailed); }
      var fee := if input.fee.Some? && input.fee.value > 0 then input.fee.value else 0;
      if config.enforce && input.reserve {
        var available := Available(config, Tables(), Pot(input.book, input.source));
        if input.amount + fee > available { return Refused(BalanceInsufficient); }
      }
      var transfer := NewTransfer(input);
      if input.reserve {
        r := InsertAndReserve(transfer, fee, input.toPlatform);
      } else {
        transfers := transfers + [transfer];
        AppendEvent(TransferId(|transfers| - 1), None, Some(OfTransfer(transfer.status)));
        r := Done;
      }
    }

    method TransitionTransfer(t: nat, to: TransferStatus, patch: TransferMeta) returns (r: Outcome)
      modifies this
      ensures Gives(r, TransitionTransferStep(old(Tables()), t, to, patch))
    {
      if t >= |transfers| { return Refused(NotFound); }
      var transfer := transfers[t];
      if !TransferMoves(transfer.status, to) { return Refused(InvalidTransition); }
      var updated := transfer.(status := to, meta := transfer.meta.Merge(patch));
      transfers := transfers[t := updated];
      r := Done;
      if Releases(to) && updated.meta.IsReserved() {
        r := Release(t, updated, to);
      }
      if r.Refused? { return; }
      AppendEvent(TransferId(t), Some(OfTransfer(transfer.status)), Some(OfTransfer(to)));
    }

    /** Give back what has not been sent back already, and the fee where it is refundable. */
    method Release(t: nat, transfer: Transfer, to: TransferStatus) returns (r: Outcome)
      requires Releases(to) && transfer.meta.IsReserved()
      modifies this`ledger
      ensures Gives(r, PostRows(old(Tables()), ReleaseRows(t, transfer, to)))
    {
      var outstanding := Max0(transfer.amount - transfer.amountReversed);
      var release := outstanding + transfer.meta.RefundableFee();
      if release <= 0 {
        assert ledger + [] == ledger;
        return Done;
      }
      var back := Row(Pot(transfer.book, transfer.source), true, release, TransferReleased(to), Some(TransferId(t)));
      if transfer.destination.Some? && outstanding > 0 {
        r := AppendLedgerPair(back, Row(Pot(transfer.book, transfer.destination), false, outstanding,
                                        TransferReleased(to), Some(TransferId(t))));
      } else {
        r := AppendLedger(back);
      }
    }

    method UpdateTransferMetadata(t: nat, patch: TransferMeta) returns (r: Outcome)
      modifies this`transfers
      ensures Gives(r, UpdateTransferMetadataStep(old(Tables()), t, patch))
    {
      if t >= |transfers| { return Refused(NotFound); }
      transfers := transfers[t := transfers[t].(meta := transfers[t].meta.Merge(patch))];
      return Done;
    }

    method TransferBetweenBalances(book: Book, amount: int, from: Owner, to: Owner, reason: Reason, about: Id)
      returns (r: Outcome)
      modifies this`ledger
      ensures Gives(r, MoveBetween(old(Tables()), book, amount, from, to, reason, about))
    {
      if from == to { return Refused(ValidationFailed); }
      r := AppendLedgerPair(Row(Pot(book, from), false, amount, reason, Some(about)),
                            Row(Pot(book, to), true, amount, reason, Some(about)));
    }

    method ReverseTransfer(t: nat, amount: Option<int>) returns (r: Outcome)
      modifies this
      ensures Gives(r, ReverseTransferStep(config, old(Tables()), t, amount))
    {
      hide Net, MoveBetween;
      if t >= |transfers| { return Refused(NotFound); }
      var transfer := transfers[t];
      if transfer.destination.None? { return Refused(ValidationFailed); }
      if transfer.status == TransferStatus.Failed || transfer.status == TransferStatus.Cancelled {
        return Refused(InvalidTransition);
      }
      var remaining := transfer.amount - transfer.amountReversed;
      var requested := if amount.Some? then amount.value else remaining;
      if requested <= 0 { return Refused(ValidationFailed); }
      if requested > remaining { return Refused(RefundExceedsAmount); }
      if config.enforce {
        var available := Net(ledger, Pot(transfer.book, transfer.destination));
        if requested > available { return Refused(BalanceInsufficient); }
      }
      var reversed := transfer.amountReversed + requested;
      var updated := transfer.(amountReversed := reversed);
      if reversed >= transfer.amount && transfer.status != Reversed {
        updated := updated.(status := Reversed);
      }
      assert updated == AfterReversal(transfer, requested);
      transfers := transfers[t := updated];
      AppendEvent(TransferId(t), Some(OfTransfer(transfer.status)), Some(OfTransfer(updated.status)));
      hide AfterReversal;
      r := TransferBetweenBalances(transfer.book, requested, transfer.destination, transfer.source,
                                   TransferReversal, TransferId(t));
    }

    /* ---------------------------- fee refunds ---------------------------- */

    /** Scan one page of transfers, newest first, for one made for the payment. */
    method FindForwarded(i: nat) returns (found: Option<nat>)
      ensures found == NewestFor(transfers, i, 500)
    {
      var k, window := |transfers|, 500;
      assert transfers[..k] == transfers;
      while k > 0 && window > 0
        invariant 0 <= k <= |transfers| && 0 <= window
        invariant NewestFor(transfers[..k], i, window) == NewestFor(transfers, i, 500)
        decreases k
      {
        if transfers[k - 1].sourcePayment == Some(i) {
          return Some(k - 1);
        }
        assert transfers[..k][..k - 1] == transfers[..k - 1];
        k, window := k - 1, window - 1;
      }
      return None;
    }

    method FeeShare(i: nat, payment: Payment, requested: int) returns (movable: int)
      ensures movable == FeeRefundShare(Tables(), i, payment, requested)
    {
      if payment.mode != Forwarded { return requested; }
      var found := FindForwarded(i);
      if found.None? || transfers[found.value].amount <= 0 { return requested; }
      var forwarded := transfers[found.value];
      movable := requested * Max0(forwarded.amount - forwarded.amountReversed) / forwarded.amount;
    }

    method RefundPlatformFee(i: nat, amount: Option<int>) returns (r: Outcome)
      modifies this
      ensures Gives(r, RefundPlatformFeeStep(old(Tables()), i, amount))
    {
      hide FeeRefundShare, NewestFor, MoveBetween;
      if i >= |payments| { return Refused(NotFound); }
      var payment := payments[i];
      if payment.platformFee <= 0 || payment.subaccount.None? { return Refused(ValidationFailed); }
      var remaining := payment.platformFee - payment.feeRefunded;
      var requested := if amount.Some? then amount.value else remaining;
      if requested <= 0 { return Refused(ValidationFailed); }
      if requested > remaining { return Refused(RefundExceedsAmount); }
      var updated := payment.(feeRefunded := payment.feeRefunded + requested);

      var movable := FeeShare(i, updated, requested);
      payments := payments[i := updated];
      AppendEvent(PaymentId(i), Some(OfPayment(payment.status)), Some(OfPayment(payment.status)));
      if movable <= 0 { return Done; }
      r := TransferBetweenBalances(payment.book, movable, None, payment.subaccount, FeeRefund, PaymentId(i));
    }

    /* ---------------------------- disputes ---------------------------- */

    method CreateDispute(i: nat, requested: Option<int>) returns (r: Outcome)
      modifies this
      ensures Gives(r, CreateDisputeStep(old(Tables()), i, requested))
    {
      if i >= |payments| { return Refused(NotFound); }
      var payment := payments[i];
      if !Collected(payment.status) { return Refused(InvalidTransition); }
      var amount := if requested.Some? then requested.value else payment.amount;
      if amount > payment.amount { return Refused(ValidationFailed); }
      if amount < 0 { return Refused(ConstraintFailed); }
      disputes := disputes + [Dispute(i, AwaitingMerchantFeedback, amount, false)];
      AppendEvent(DisputeId(|disputes| - 1), None, Some(OfDispute(AwaitingMerchantFeedback)));
      return Done;
    }

    method TransitionDispute(d: nat, to: DisputeStatus) returns (r: Outcome)
      modifies this
      ensures Gives(r, TransitionDisputeStep(old(Tables()), d, to))
    {
      if d >= |disputes| { return Refused(NotFound); }
      var dispute := disputes[d];
      if !DisputeMoves(dispute.status, to) { return Refused(InvalidTransition); }
      disputes := disputes[d := dispute.(status := to)];
      AppendEvent(DisputeId(d), Some(OfDispute(dispute.status)), Some(OfDispute(to)));
      return Done;
    }

    /** Raise and settle the conceded refund, then close, all inside the caller's transaction. */
    method ResolveDispute(d: nat, accepted: bool, requested: Option<int>) returns (r: Outcome)
      modifies this
      ensures Gives(r, ResolveDisputeStep(old(Tables()), d, accepted, requested))
    {
      if d >= |disputes| { return Refused(NotFound); }
      var dispute := disputes[d];
      if !DisputeMoves(dispute.status, Resolved) { return Refused(InvalidTransition); }
      var amount := if requested.Some? then requested.value else dispute.refundAmount;
      if accepted && amount > 0 {
        var k := |refunds|;
        r := CreateRefund(dispute.payment, Some(amount), RefundStatus.Pending);
        if r.Refused? { return; }
        r := TransitionRefund(k, RefundStatus.Successful);
        if r.Refused? { return; }
      }
      if requested.Some? && amount < 0 { return Refused(ConstraintFailed); }
      disputes := disputes[d := dispute.(status := Resolved, accepted := accepted, refundAmount := amount)];
      AppendEvent(DisputeId(d), Some(OfDispute(dispute.status)), Some(OfDispute(Resolved)));
      return Done;
    }

    /* ---------------------------- balances ---------------------------- */

    method RecordBalance(credit: bool, pot: Pot, amount: int, text: string, about: Option<Id>) returns (r: Outcome)
      modifies this`ledger
      ensures Gives(r, BookEntryStep(old(Tables()), credit, pot, amount, text, about))
    {
      if amount <= 0 { return Refused(ValidationFailed); }
      ledger := ledger + [Row(pot, credit, amount, External(text), about)];
      return Done;
    }

    method ExchangeBalance(provider: string, from: string, fromAmount: int, to: string, toAmount: int,
                           owner: Owner, checkFunds: bool, text: string, about: Option<Id>) returns (r: Outcome)
      modifies this`ledger
      ensures Gives(r, ExchangeBalanceStep(config, old(Tables()), provider, from, fromAmount, to, toAmount,
                                           owner, checkFunds, text, about))
    {
      if fromAmount <= 0 || toAmount <= 0 { return Refused(ValidationFailed); }
      if from == to { return Refused(ValidationFailed); }
      var source := Pot(Book(provider, from), owner);
      if checkFunds && config.enforce {
        var available := Available(config, Tables(), source);
        if available < fromAmount { return Refused(BalanceInsufficient); }
      }
      var debit := Row(source, false, fromAmount, External(text), about);
      var credit := Row(Pot(Book(provider, to), owner), true, toAmount, External(text), about);
      assert Postable([debit, credit]);
      r := AppendLedgerPair(debit, credit);
    }

    /* ---------------------------- transactions ---------------------------- */

    method Dispatch(op: Op) returns (r: Outcome)
      modifies this
      ensures Gives(r, Try(config, old(Tables()), op))
    {
      match op
      case CreatePayment(book, amount, status, subaccount, mode, fee) =>
        r := CreatePayment(book, amount, status, subaccount, mode, fee);
      case TransitionPayment(i, to, reversal, retry) => r := TransitionPayment(i, to, reversal, retry);
      case CreateRefund(i, requested, status) => r := CreateRefund(i, requested, status);
      case TransitionRefund(k, to) => r := TransitionRefund(k, to);
      case CreateTransfer(input) => r := CreateTransfer(input);
      case TransitionTransfer(t, to, patch) => r := TransitionTransfer(t, to, patch);
      case UpdateTransferMetadata(t, patch) => r := UpdateTransferMetadata(t, patch);
      case ReverseTransfer(t, requested) => r := ReverseTransfer(t, requested);
      case RefundPlatformFee(i, requested) => r := RefundPlatformFee(i, requested);
      case CreateDispute(i, requested) => r := CreateDispute(i, requested);
      case TransitionDispute(d, to) => r := TransitionDispute(d, to);
      case ResolveDispute(d, accepted, requested) => r := ResolveDispute(d, accepted, requested);
      case CreditBalance(pot, amount, text, about) => r := RecordBalance(true, pot, amount, text, about);
      case DebitBalance(pot, amount, text, about) => r := RecordBalance(false, pot, amount, text, about);
      case ExchangeBalance(provider, from, fromAmount, to, toAmount, owner, checkFunds, text, about) =>
        r := ExchangeBalance(provider, from, fromAmount, to, toAmount, owner, checkFunds, text, about);
    }

    /** `storage.transaction`: the operation commits whole, or leaves every table as it was. */
    method Transact(op: Op) returns (r: Outcome)
      modifies this
      ensures Tables() == Step(config, old(Tables()), op)
      ensures r.Done? <==> Try(config, old(Tables()), op).Ok?
      ensures r.Refused? ==> Try(config, old(Tables()), op).error == r.error
    {
      var saved := Tables();
      r := Dispatch(op);
      if r.Refused? { Rollback(saved); }
    }
  }
}
