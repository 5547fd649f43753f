/** Every status change that a run logs is one the transition tables allow. */
module Timelines {
  import opened Options
  import opened StateMachine
  import opened Storage
  import opened EngineSpec

  /** From one recorded status to the next, of one kind of object: the same again, or a move of its table. Reversing the
      last of a transfer marks it `reversed` from wherever it stands, unless it has failed or been cancelled. */
  predicate MayFollow(from: Status, to: Status, reversal: bool) {
    match from
    case OfPayment(x) => to.OfPayment? && (to.payment == x || PaymentMoves(x, to.payment, reversal, true))
    case OfRefund(x) => to.OfRefund? && RefundMoves(x, to.refund)
    case OfTransfer(x) =>
      && to.OfTransfer?
      && (|| to.transfer == x || TransferMoves(x, to.transfer)
          || (to.transfer == Reversed && x != TransferStatus.Failed && x != TransferStatus.Cancelled))
    case OfDispute(x) => to.OfDispute? && DisputeMoves(x, to.dispute)
  }

  predicate Allowed(e: Event, reversal: bool) {
    e.current.Some? && (e.previous.Some? ==> MayFollow(e.previous.value, e.current.value, reversal))
  }

  predicate AllAllowed(events: seq<Event>, reversal: bool) { forall e <- events :: Allowed(e, reversal) }

  lemma AppendAllowed(s: State, id: Id, previous: Option<Status>, current: Option<Status>, reversal: bool)
    requires AllAllowed(s.events, reversal)
    requires current.Some? && (previous.Some? ==> MayFollow(previous.value, current.value, reversal))
    ensures AllAllowed(s.Append(id, previous, current).events, reversal)
  {
    hide MayFollow;
  }

  lemma SettlementAllowed(s: State, i: nat, to: PaymentStatus, back: bool, retry: bool, reversal: bool)
    requires AllAllowed(s.events, reversal) && TransitionPaymentStep(s, i, to, back, retry).Ok? && (back ==> reversal)
    ensures AllAllowed(TransitionPaymentStep(s, i, to, back, retry).value.events, reversal)
  {
    hide AllAllowed, ChargeRows, ReserveRows, PaymentTargets;
    var p := s.payments[i];
    var written := s.(payments := s.payments[i := p.(status := to)]);
    AppendAllowed(written, PaymentId(i), Some(OfPayment(p.status)), Some(OfPayment(to)), reversal);
    var moved := s.UpdatePayment(i, p.(status := to));
    if to == PaymentStatus.Successful && IsForwarded(p) && ForwardedShare(p) > 0 {
      var charged := moved.Post(ChargeRows(i, p));
      var transfer := ForwardingTransfer(i, p);
      AppendAllowed(charged.(transfers := charged.transfers + [transfer]), TransferId(|charged.transfers|), None,
                    Some(OfTransfer(transfer.status)), reversal);
    }
  }

  lemma RefundCreationAllowed(s: State, i: nat, requested: Option<int>, status: RefundStatus, reversal: bool)
    requires AllAllowed(s.events, reversal) && CreateRefundStep(s, i, requested, status).Ok?
    ensures AllAllowed(CreateRefundStep(s, i, requested, status).value.events, reversal)
  {
    hide AllAllowed, TotalRefunded;
    var refund := CreateRefundStep(s, i, requested, status).value.refunds[|s.refunds|];
    AppendAllowed(s.(refunds := s.refunds + [refund]), RefundId(|s.refunds|), None, Some(OfRefund(status)), reversal);
  }

  lemma RefundMoveAllowed(s: State, r: nat, to: RefundStatus, reversal: bool)
    requires AllAllowed(s.events, reversal) && TransitionRefundStep(s, r, to).Ok?
    ensures AllAllowed(TransitionRefundStep(s, r, to).value.events, reversal)
  {
    hide AllAllowed, TotalRefunded, RefundRow, PaymentTargets, RefundTargets;
    var refund := s.refunds[r];
    AppendAllowed(s.(refunds := s.refunds[r := refund.(status := to)]), RefundId(r), Some(OfRefund(refund.status)),
                  Some(OfRefund(to)), reversal);
    if to == RefundStatus.Successful {
      var moved, i := s.UpdateRefund(r, refund.(status := to)), refund.payment;
      var total := TotalRefunded(moved.refunds, i);
      var next := s.payments[i].(status := RefundedStatus(s.payments[i].amount, total), amountRefunded := total);
      AppendAllowed(moved.(payments := s.payments[i := next]), PaymentId(i), Some(OfPayment(s.payments[i].status)),
                    Some(OfPayment(next.status)), reversal);
    }
  }

  lemma DisputeAllowed(s: State, d: nat, accepted: bool, requested: Option<int>, reversal: bool)
    requires AllAllowed(s.events, reversal) && ResolveDisputeStep(s, d, accepted, requested).Ok?
    ensures AllAllowed(ResolveDisputeStep(s, d, accepted, requested).value.events, reversal)
  {
    hide AllAllowed, CreateRefundStep, TransitionRefundStep, DisputeTargets;
    var dispute, amount := s.disputes[d], Default(requested, s.disputes[d].refundAmount);
    var refunded := s;
    if accepted && amount > 0 {
      var created := CreateRefundStep(s, dispute.payment, Some(amount), RefundStatus.Pending).value;
      RefundCreationAllowed(s, dispute.payment, Some(amount), RefundStatus.Pending, reversal);
      RefundMoveAllowed(created, |s.refunds|, RefundStatus.Successful, reversal);
      refunded := TransitionRefundStep(created, |s.refunds|, RefundStatus.Successful).value;
    }
    var closed := dispute.(status := Resolved, accepted := accepted, refundAmount := amount);
    AppendAllowed(refunded.(disputes := refunded.disputes[d := closed]), DisputeId(d), Some(OfDispute(dispute.status)),
                  Some(OfDispute(Resolved)), reversal);
  }

  lemma TransferStepAllowed(c: Config, s: State, op: Op, reversal: bool)
    requires op.CreateTransfer? || op.TransitionTransfer? || op.UpdateTransferMetadata? || op.ReverseTransfer?
    requires AllAllowed(s.events, reversal) && Try(c, s, op).Ok?
    ensures AllAllowed(Try(c, s, op).value.events, reversal)
  {
    hide ReserveRows, ReleaseRows, MoveRows, Net, TransferTargets, PaymentTargets;
  }

  lemma OtherStepAllowed(c: Config, s: State, op: Op, reversal: bool)
    requires op.CreatePayment? || op.CreateDispute? || op.TransitionDispute? || op.RefundPlatformFee?
             || op.CreditBalance? || op.DebitBalance? || op.ExchangeBalance?
    requires AllAllowed(s.events, reversal) && Try(c, s, op).Ok?
    ensures AllAllowed(Try(c, s, op).value.events, reversal)
  {
    hide TransitionPaymentStep, CreateRefundStep, TransitionRefundStep, ResolveDisputeStep, CreateTransferStep;
    hide TransitionTransferStep, ReverseTransferStep, FeeRefundShare, DisputeTargets, PaymentTargets;
  }

  /** A call that simulates a reversal. */
  predicate IsReversal(op: Op) { op.TransitionPayment? && op.reversal }

  lemma StepAllowed(c: Config, s: State, op: Op, reversal: bool)
    requires AllAllowed(s.events, reversal) && (IsReversal(op) ==> reversal)
    ensures AllAllowed(Step(c, s, op).events, reversal)
  {
    hide AllAllowed;
    if Try(c, s, op).Err? { return; }
    match op
    case TransitionPayment(i, to, back, retry) => SettlementAllowed(s, i, to, back, retry, reversal);
    case CreateRefund(i, requested, status) => RefundCreationAllowed(s, i, requested, status, reversal);
    case TransitionRefund(r, to) => RefundMoveAllowed(s, r, to, reversal);
    case ResolveDispute(d, accepted, requested) => DisputeAllowed(s, d, accepted, requested, reversal);
    case CreateTransfer(_) => TransferStepAllowed(c, s, op, reversal);
    case TransitionTransfer(_, _, _) => TransferStepAllowed(c, s, op, reversal);
    case UpdateTransferMetadata(_, _) => TransferStepAllowed(c, s, op, reversal);
    case ReverseTransfer(_, _) => TransferStepAllowed(c, s, op, reversal);
    case _ => OtherStepAllowed(c, s, op, reversal);
  }

  /** Over every run: each event of the log repeats its object's status or moves it as the tables allow, and a payment that
      has ended is lifted in the log only of a run that simulates a reversal, or retries a failure. */
  lemma {:induction false} LogMovesByTheTables(c: Config, s: State, ops: seq<Op>, reversal: bool)
    requires AllAllowed(s.events, reversal) && forall op <- ops :: IsReversal(op) ==> reversal
    ensures AllAllowed(Run(c, s, ops).events, reversal)
    decreases ops
  {
    hide AllAllowed, Step;
    if ops != [] {
      StepAllowed(c, s, ops[0], reversal);
      LogMovesByTheTables(c, Step(c, s, ops[0]), ops[1..], reversal);
    }
  }
}
