/** Which ledger rows each operation writes, and that every row names a row of its table in that row's book. */
module Accounts {
  import opened Options
  import opened StateMachine
  import opened Storage
  import opened EngineSpec
  import opened Settlement
  import Refunds
  import Transfers

  predicate IsChargeRow(r: Row) { r.reason.Charge? || r.reason.ApplicationFee? }

  /** Every row the engine wrote names a row of its table, in that row's book. */
  predicate RowValid(s: State, r: Row) {
    if IsChargeRow(r) then
      && r.resource.Some? && r.resource.value.PaymentId? && r.resource.value.n < |s.payments|
      && r.pot.book == s.payments[r.resource.value.n].book
    else if r.reason.RefundPaid? then
      && r.resource.Some? && r.resource.value.RefundId? && r.resource.value.n < |s.refunds|
      && s.refunds[r.resource.value.n].payment < |s.payments|
      && r.pot == Pot(s.refunds[r.resource.value.n].book,
                      Refunds.RefundPot(s.payments[s.refunds[r.resource.value.n].payment]).owner)
    else if Transfers.IsTransferRow(r) then
      && r.resource.Some? && r.resource.value.TransferId? && r.resource.value.n < |s.transfers|
      && r.pot.book == s.transfers[r.resource.value.n].book
    else true
  }

  predicate RowsValid(s: State) { forall r <- s.ledger :: RowValid(s, r) }

  /** Tables only grow, and what the ledger depends on in a row never changes. */
  ghost predicate Grown(s: State, t: State) {
    && |s.payments| <= |t.payments| && |s.refunds| <= |t.refunds| && |s.transfers| <= |t.transfers|
    && (forall i :: 0 <= i < |s.payments| ==> SameCharge(s.payments[i], t.payments[i]))
    && (forall i :: 0 <= i < |s.refunds| ==>
          && t.refunds[i].payment == s.refunds[i].payment && t.refunds[i].book == s.refunds[i].book)
    && (forall i :: 0 <= i < |s.transfers| ==> t.transfers[i].book == s.transfers[i].book)
    && |s.ledger| <= |t.ledger| && t.ledger[..|s.ledger|] == s.ledger
    && |s.events| <= |t.events| && t.events[..|s.events|] == s.events
  }

  datatype RowClass = ChargeClass | RefundClass | TransferClass | FeeClass | ExternalClass

  function ClassOf(r: Row): RowClass {
    match r.reason
    case Charge => ChargeClass
    case ApplicationFee => ChargeClass
    case RefundPaid => RefundClass
    case TransferMade => TransferClass
    case TransferReversal => TransferClass
    case TransferReleased(_) => TransferClass
    case FeeRefund => FeeClass
    case External(_) => ExternalClass
  }

  /** Grown, by valid rows of the given classes only. */
  ghost predicate GrownBy(s: State, t: State, classes: set<RowClass>) {
    && Grown(s, t)
    && (forall k :: |s.ledger| <= k < |t.ledger| ==> RowValid(t, t.ledger[k]) && ClassOf(t.ledger[k]) in classes)
  }

  lemma GrownTwice(s: State, t: State, u: State, classes: set<RowClass>)
    requires GrownBy(s, t, classes) && GrownBy(t, u, classes)
    ensures GrownBy(s, u, classes)
  {
    forall k | |s.ledger| <= k < |u.ledger|
      ensures RowValid(u, u.ledger[k]) && ClassOf(u.ledger[k]) in classes
    {
      if k < |t.ledger| {
        assert u.ledger[..|t.ledger|][k] == t.ledger[k];
        assert RowValid(t, t.ledger[k]);
      }
    }
    assert u.ledger[..|s.ledger|] == u.ledger[..|t.ledger|][..|s.ledger|];
    assert u.events[..|s.events|] == u.events[..|t.events|][..|s.events|];
  }

  lemma GrownKeepsRows(s: State, t: State, classes: set<RowClass>)
    requires RowsValid(s) && GrownBy(s, t, classes)
    ensures RowsValid(t)
  {
    forall r | r in t.ledger ensures RowValid(t, r) {
      var k :| 0 <= k < |t.ledger| && t.ledger[k] == r;
      if k < |s.ledger| {
        assert t.ledger[..|s.ledger|][k] == s.ledger[k];
        assert RowValid(s, s.ledger[k]);
      }
    }
  }

  lemma PostGrows(s: State, rows: seq<Row>, classes: set<RowClass>)
    requires forall r <- rows :: RowValid(s, r) && ClassOf(r) in classes
    ensures GrownBy(s, s.Post(rows), classes)
  {
    forall k | |s.ledger| <= k < |s.ledger + rows|
      ensures RowValid(s.Post(rows), (s.ledger + rows)[k]) && ClassOf((s.ledger + rows)[k]) in classes
    {
      assert (s.ledger + rows)[k] == rows[k - |s.ledger|];
      assert RowValid(s, rows[k - |s.ledger|]);
    }
  }

  lemma UpdatePaymentGrows(s: State, i: nat, p: Payment, classes: set<RowClass>)
    requires i < |s.payments| && SameCharge(s.payments[i], p)
    ensures GrownBy(s, s.UpdatePayment(i, p), classes)
  {
  }

  lemma InsertTransferGrows(s: State, transfer: Transfer, classes: set<RowClass>)
    ensures GrownBy(s, s.InsertTransfer(transfer), classes)
  {
  }

  lemma UpdateTransferGrows(s: State, t: nat, transfer: Transfer, classes: set<RowClass>)
    requires t < |s.transfers| && transfer.book == s.transfers[t].book
    ensures GrownBy(s, s.UpdateTransfer(t, transfer), classes)
  {
  }

  lemma InsertReservedGrows(s: State, transfer: Transfer, fee: int, toPlatform: bool, classes: set<RowClass>)
    requires InsertReserved(s, transfer, fee, toPlatform).Ok?
    requires TransferClass in classes
    ensures GrownBy(s, InsertReserved(s, transfer, fee, toPlatform).value, classes)
  {
    InsertTransferGrows(s, transfer, classes);
    PostGrows(s.InsertTransfer(transfer), ReserveRows(|s.transfers|, transfer, fee, toPlatform), classes);
    GrownTwice(s, s.InsertTransfer(transfer), InsertReserved(s, transfer, fee, toPlatform).value, classes);
  }

  lemma TransitionPaymentGrows(s: State, i: nat, to: PaymentStatus, reversal: bool, retry: bool)
    requires TransitionPaymentStep(s, i, to, reversal, retry).Ok?
    ensures GrownBy(s, TransitionPaymentStep(s, i, to, reversal, retry).value, {ChargeClass, TransferClass})
  {
    var p := s.payments[i];
    var moved := s.UpdatePayment(i, p.(status := to));
    UpdatePaymentGrows(s, i, p.(status := to), {ChargeClass, TransferClass});
    if to == PaymentStatus.Successful {
      var charged := moved.Post(ChargeRows(i, p));
      PostGrows(moved, ChargeRows(i, p), {ChargeClass, TransferClass});
      GrownTwice(s, moved, charged, {ChargeClass, TransferClass});
      if IsForwarded(p) && ForwardedShare(p) > 0 {
        var sent := InsertReserved(charged, ForwardingTransfer(i, p), 0, false).value;
        InsertReservedGrows(charged, ForwardingTransfer(i, p), 0, false, {ChargeClass, TransferClass});
        GrownTwice(s, charged, sent, {ChargeClass, TransferClass});
      }
    }
  }

  lemma CreateRefundGrows(s: State, i: nat, requested: Option<int>, status: RefundStatus)
    requires CreateRefundStep(s, i, requested, status).Ok?
    ensures GrownBy(s, CreateRefundStep(s, i, requested, status).value, {RefundClass})
  {
  }

  lemma TransitionRefundGrows(s: State, r: nat, to: RefundStatus)
    requires TransitionRefundStep(s, r, to).Ok?
    ensures GrownBy(s, TransitionRefundStep(s, r, to).value, {RefundClass})
  {
  }

  lemma ResolveDisputeGrows(s: State, d: nat, accepted: bool, requested: Option<int>)
    requires ResolveDisputeStep(s, d, accepted, requested).Ok?
    ensures GrownBy(s, ResolveDisputeStep(s, d, accepted, requested).value, {RefundClass})
  {
    var i, amount := s.disputes[d].payment, Default(requested, s.disputes[d].refundAmount);
    if accepted && amount > 0 {
      var created := CreateRefundStep(s, i, Some(amount), RefundStatus.Pending).value;
      CreateRefundGrows(s, i, Some(amount), RefundStatus.Pending);
      TransitionRefundGrows(created, |s.refunds|, RefundStatus.Successful);
      GrownTwice(s, created, ConcedeRefund(s, i, amount).value, {RefundClass});
      ClosingGrows(ConcedeRefund(s, i, amount).value, d, accepted, amount);
      GrownTwice(s, ConcedeRefund(s, i, amount).value, CloseDispute(ConcedeRefund(s, i, amount).value, d, accepted, amount), {RefundClass});
    } else {
      ClosingGrows(s, d, accepted, amount);
    }
  }

  lemma ClosingGrows(s: State, d: nat, accepted: bool, amount: int)
    requires d < |s.disputes|
    ensures GrownBy(s, CloseDispute(s, d, accepted, amount), {RefundClass})
  {
  }

  lemma CreateTransferGrows(c: Config, s: State, input: TransferInput)
    requires CreateTransferStep(c, s, input).Ok?
    ensures GrownBy(s, CreateTransferStep(c, s, input).value, {TransferClass})
  {
    if input.reserve {
      InsertReservedGrows(s, NewTransfer(input), Max0(Default(input.fee, 0)), input.toPlatform, {TransferClass});
    } else {
      InsertTransferGrows(s, NewTransfer(input), {TransferClass});
    }
  }

  lemma TransitionTransferGrows(s: State, t: nat, to: TransferStatus, patch: TransferMeta)
    requires TransitionTransferStep(s, t, to, patch).Ok?
    ensures GrownBy(s, TransitionTransferStep(s, t, to, patch).value, {TransferClass})
  {
    var updated := s.transfers[t].(status := to, meta := s.transfers[t].meta.Merge(patch));
    UpdateTransferGrows(s, t, updated, {TransferClass});
    PostGrows(s.UpdateTransfer(t, updated), ReleaseRows(t, updated, to), {TransferClass});
    GrownTwice(s, s.UpdateTransfer(t, updated), TransitionTransferStep(s, t, to, patch).value, {TransferClass});
  }

  lemma ReverseTransferGrows(c: Config, s: State, t: nat, amount: Option<int>)
    requires ReverseTransferStep(c, s, t, amount).Ok?
    ensures GrownBy(s, ReverseTransferStep(c, s, t, amount).value, {TransferClass})
  {
    hide GrownBy, Net;
    var transfer := s.transfers[t];
    var requested := Default(amount, transfer.amount - transfer.amountReversed);
    var moved := s.UpdateTransfer(t, AfterReversal(transfer, requested));
    UpdateTransferGrows(s, t, AfterReversal(transfer, requested), {TransferClass});
    PostGrows(moved, MoveRows(transfer.book, requested, transfer.destination, transfer.source,
                              TransferReversal, TransferId(t)), {TransferClass});
    GrownTwice(s, moved, ReverseTransferStep(c, s, t, amount).value, {TransferClass});
  }

  lemma ReturnFeeGrows(s: State, i: nat, p: Payment, movable: int)
    requires ReturnFee(s, i, p, movable).Ok?
    ensures GrownBy(s, ReturnFee(s, i, p, movable).value, {FeeClass})
  {
    if movable > 0 {
      PostGrows(s, MoveRows(p.book, movable, None, p.subaccount, FeeRefund, PaymentId(i)), {FeeClass});
    }
  }

  lemma RefundPlatformFeeGrows(s: State, i: nat, amount: Option<int>)
    requires RefundPlatformFeeStep(s, i, amount).Ok?
    ensures GrownBy(s, RefundPlatformFeeStep(s, i, amount).value, {FeeClass})
  {
    hide FeeRefundShare, GrownBy, ReturnFee;
    var p := s.payments[i];
    var requested := Default(amount, p.platformFee - p.feeRefunded);
    var updated := p.(feeRefunded := p.feeRefunded + requested);
    UpdatePaymentGrows(s, i, updated, {FeeClass});
    ReturnFeeGrows(s.UpdatePayment(i, updated), i, updated, FeeRefundShare(s, i, updated, requested));
    GrownTwice(s, s.UpdatePayment(i, updated), RefundPlatformFeeStep(s, i, amount).value, {FeeClass});
  }

  lemma MetadataStepGrows(s: State, t: nat, patch: TransferMeta)
    requires UpdateTransferMetadataStep(s, t, patch).Ok?
    ensures GrownBy(s, UpdateTransferMetadataStep(s, t, patch).value, {TransferClass})
  {
  }

  lemma OtherStepGrows(c: Config, s: State, op: Op)
    requires op.CreatePayment? || op.CreateDispute? || op.TransitionDispute?
             || op.CreditBalance? || op.DebitBalance? || op.ExchangeBalance?
    requires Try(c, s, op).Ok?
    ensures GrownBy(s, Try(c, s, op).value, {ExternalClass})
  {
    hide TransitionPaymentStep, CreateRefundStep, TransitionRefundStep, ResolveDisputeStep, CreateTransferStep;
    hide TransitionTransferStep, ReverseTransferStep, RefundPlatformFeeStep, BookEntryStep, ExchangeBalanceStep;
    if op.CreditBalance? || op.DebitBalance? || op.ExchangeBalance? {
      hide GrownBy, CreatePaymentStep, CreateDisputeStep, TransitionDisputeStep;
      BalanceStepGrows(c, s, op);
    }
  }

  lemma BalanceStepGrows(c: Config, s: State, op: Op)
    requires op.CreditBalance? || op.DebitBalance? || op.ExchangeBalance?
    requires Try(c, s, op).Ok?
    ensures GrownBy(s, Try(c, s, op).value, {ExternalClass})
  {
    hide TransitionPaymentStep, CreateRefundStep, TransitionRefundStep, ResolveDisputeStep, CreateTransferStep;
    hide TransitionTransferStep, ReverseTransferStep, RefundPlatformFeeStep;
    hide CreatePaymentStep, CreateDisputeStep, TransitionDisputeStep, Available;
  }

  /** The classes of ledger row an operation can write. */
  function ClassesOf(op: Op): set<RowClass> {
    match op
    case TransitionPayment(_, _, _, _) => {ChargeClass, TransferClass}
    case CreateRefund(_, _, _) => {RefundClass}
    case TransitionRefund(_, _) => {RefundClass}
    case ResolveDispute(_, _, _) => {RefundClass}
    case CreateTransfer(_) => {TransferClass}
    case TransitionTransfer(_, _, _) => {TransferClass}
    case UpdateTransferMetadata(_, _) => {TransferClass}
    case ReverseTransfer(_, _) => {TransferClass}
    case RefundPlatformFee(_, _) => {FeeClass}
    case _ => {ExternalClass}
  }

  lemma StepGrows(c: Config, s: State, op: Op)
    ensures GrownBy(s, Step(c, s, op), ClassesOf(op))
  {
    if Try(c, s, op).Ok? {
      match op
      case TransitionPayment(i, to, reversal, retry) => TransitionPaymentGrows(s, i, to, reversal, retry);
      case CreateRefund(i, requested, status) => CreateRefundGrows(s, i, requested, status);
      case TransitionRefund(r, to) => TransitionRefundGrows(s, r, to);
      case ResolveDispute(d, accepted, requested) => ResolveDisputeGrows(s, d, accepted, requested);
      case CreateTransfer(input) => CreateTransferGrows(c, s, input);
      case TransitionTransfer(t, to, patch) => TransitionTransferGrows(s, t, to, patch);
      case UpdateTransferMetadata(t, patch) => MetadataStepGrows(s, t, patch);
      case ReverseTransfer(t, requested) => ReverseTransferGrows(c, s, t, requested);
      case RefundPlatformFee(i, requested) => RefundPlatformFeeGrows(s, i, requested);
      case _ => OtherStepGrows(c, s, op);
    }
  }
}
