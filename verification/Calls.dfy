/** When each call of the engine is accepted, and what it leaves in the rows it is about. */
module Calls {
  import opened Options
  import opened StateMachine
  import opened Storage
  import opened EngineSpec
  import opened Settlement

  /* ---------------------------- payments ---------------------------- */

  lemma PaymentCreatedExactlyWhen(c: Config, s: State, op: Op)
    requires op.CreatePayment?
    ensures Try(c, s, op).Ok? <==> op.amount > 0
    ensures Try(c, s, op).Ok? ==>
              var t := Try(c, s, op).value;
              && |t.payments| == |s.payments| + 1 && t.payments[..|s.payments|] == s.payments && t.ledger == s.ledger
              && (var p := t.payments[|s.payments|];
                  && p.book == op.book && p.amount == op.amount && p.status == op.status && p.subaccount == op.subaccount
                  && p.mode == op.mode && p.amountRefunded == 0 && p.feeRefunded == 0
                  && p.platformFee == if op.fee < 0 then 0 else op.fee)
  {
  }

  /** A payment moves as the table says, but for one thing: a direct charge that its fee would use up cannot be settled,
      because the account would be credited with nothing. */
  lemma PaymentMovesExactlyWhen(s: State, i: nat, to: PaymentStatus, reversal: bool, retry: bool)
    requires i < |s.payments| && s.payments[i].amount > 0 && s.payments[i].platformFee >= 0
    ensures var p := s.payments[i];
            TransitionPaymentStep(s, i, to, reversal, retry).Ok? <==>
              && PaymentMoves(p.status, to, reversal, retry)
              && !(to == PaymentStatus.Successful && p.mode == Direct && p.subaccount.Some? && p.platformFee >= p.amount)
    ensures TransitionPaymentStep(s, i, to, reversal, retry).Ok? ==>
              var t := TransitionPaymentStep(s, i, to, reversal, retry).value;
              && t.payments == s.payments[i := s.payments[i].(status := to)]
              && (to != PaymentStatus.Successful ==> t.ledger == s.ledger && t.transfers == s.transfers)
  {
    hide PaymentTargets;
  }

  /** A charge that is forwarded leaves a transfer that can be reversed later, to the account and for what the fee leaves. */
  lemma ForwardedLeavesATransfer(s: State, i: nat, reversal: bool, retry: bool)
    requires TransitionPaymentStep(s, i, PaymentStatus.Successful, reversal, retry).Ok? && s.payments[i].platformFee >= 0
    ensures var p, t := s.payments[i], TransitionPaymentStep(s, i, PaymentStatus.Successful, reversal, retry).value;
            if p.mode != Forwarded || p.subaccount == None || p.platformFee >= p.amount then t.transfers == s.transfers
            else
              && |t.transfers| == |s.transfers| + 1 && t.transfers[..|s.transfers|] == s.transfers
              && (var transfer := t.transfers[|s.transfers|];
                  && transfer.book == p.book && transfer.amount == p.amount - p.platformFee
                  && transfer.source == None && transfer.destination == p.subaccount
                  && transfer.sourcePayment == Some(i) && transfer.amountReversed == 0
                  && transfer.status == TransferStatus.Successful && transfer.meta.fee == None)
  {
    hide PaymentTargets;
  }

  /* ---------------------------- refunds ---------------------------- */

  /** A refund counts against its payment from the start, and until it fails. */
  lemma OneMoreRefundCounts(refunds: seq<Refund>, refund: Refund, i: nat)
    ensures TotalRefunded(refunds + [refund], i)
            == TotalRefunded(refunds, i)
               + if refund.payment == i && refund.status != RefundStatus.Failed then refund.amount else 0
  {
    SumOne(refunds, refund, CountedFor(i));
  }

  lemma RefundCreatedExactlyWhen(s: State, i: nat, requested: Option<int>, status: RefundStatus)
    requires i < |s.payments|
    ensures var p := s.payments[i];
            var left := p.amount - TotalRefunded(s.refunds, i);
            var amount := if requested.Some? then requested.value else left;
            && (CreateRefundStep(s, i, requested, status).Ok? <==>
                  p.status in {PaymentStatus.Successful, PartiallyRefunded} && 0 < amount <= left)
            && (CreateRefundStep(s, i, requested, status).Ok? ==>
                  var t := CreateRefundStep(s, i, requested, status).value;
                  t.refunds == s.refunds + [Refund(i, p.book, amount, status)] && t.payments == s.payments && t.ledger == s.ledger)
  {
    hide TotalRefunded;
  }

  /** A refund moves by its table; when it settles, its payment is refunded by everything that then counts. */
  lemma RefundMovesExactlyWhen(s: State, r: nat, to: RefundStatus)
    requires r < |s.refunds|
    ensures var refund := s.refunds[r];
            && (to != RefundStatus.Successful ==> (TransitionRefundStep(s, r, to).Ok? <==> RefundMoves(refund.status, to)))
            && (TransitionRefundStep(s, r, to).Ok? ==>
                  var t := TransitionRefundStep(s, r, to).value;
                  && RefundMoves(refund.status, to) && t.refunds == s.refunds[r := refund.(status := to)]
                  && if to != RefundStatus.Successful then t.payments == s.payments else
                     && refund.payment < |s.payments|
                     && (var i, p := refund.payment, s.payments[refund.payment];
                         var all := TotalRefunded(t.refunds, i);
                         t.payments == s.payments[i := p.(amountRefunded := all,
                                                          status := if all < p.amount then PartiallyRefunded else Refunded)]))
  {
    hide TotalRefunded, RefundTargets, PaymentTargets;
  }

  /* ---------------------------- transfers ---------------------------- */

  /** Each key of the metadata as it was, unless the patch has it. */
  predicate PatchedBy(was: TransferMeta, patch: TransferMeta, now: TransferMeta) {
    && now.fee == (if patch.fee == None then was.fee else patch.fee)
    && now.feeRefundable == (if patch.feeRefundable == None then was.feeRefundable else patch.feeRefundable)
    && now.reserved == (if patch.reserved == None then was.reserved else patch.reserved)
  }

  /** A transfer moves as its table says, always: what it releases is never refused. */
  lemma TransferMovesExactlyWhen(s: State, i: nat, to: TransferStatus, patch: TransferMeta)
    ensures TransitionTransferStep(s, i, to, patch).Ok? <==> i < |s.transfers| && TransferMoves(s.transfers[i].status, to)
    ensures TransitionTransferStep(s, i, to, patch).Ok? ==>
              var was, t := s.transfers[i], TransitionTransferStep(s, i, to, patch).value;
              && |t.transfers| == |s.transfers| && PatchedBy(was.meta, patch, t.transfers[i].meta)
              && t.transfers == s.transfers[i := was.(status := to, meta := t.transfers[i].meta)] && t.payments == s.payments
  {
    hide TransferTargets, TransferMeta.RefundableFee;
  }

  lemma MetadataWrittenExactlyWhen(s: State, i: nat, patch: TransferMeta)
    ensures UpdateTransferMetadataStep(s, i, patch).Ok? <==> i < |s.transfers|
    ensures UpdateTransferMetadataStep(s, i, patch).Ok? ==>
              var was, t := s.transfers[i], UpdateTransferMetadataStep(s, i, patch).value;
              && |t.transfers| == |s.transfers| && PatchedBy(was.meta, patch, t.transfers[i].meta)
              && t.transfers == s.transfers[i := was.(meta := t.transfers[i].meta)] && t.ledger == s.ledger
  {
  }

  /* ---------------------------- disputes ---------------------------- */

  lemma DisputeCreatedExactlyWhen(s: State, i: nat, requested: Option<int>)
    requires i < |s.payments|
    ensures var p := s.payments[i];
            var amount := if requested.Some? then requested.value else p.amount;
            && (CreateDisputeStep(s, i, requested).Ok? <==>
                  p.status in {PaymentStatus.Successful, PartiallyRefunded, Refunded} && 0 <= amount <= p.amount)
            && (CreateDisputeStep(s, i, requested).Ok? ==>
                  var t := CreateDisputeStep(s, i, requested).value;
                  && t.disputes == s.disputes + [Dispute(i, AwaitingMerchantFeedback, amount, false)]
                  && t.payments == s.payments && t.ledger == s.ledger)
  {
  }

  lemma DisputeMovesExactlyWhen(s: State, d: nat, to: DisputeStatus)
    ensures TransitionDisputeStep(s, d, to).Ok? <==> d < |s.disputes| && DisputeMoves(s.disputes[d].status, to)
    ensures TransitionDisputeStep(s, d, to).Ok? ==>
              var t := TransitionDisputeStep(s, d, to).value;
              t.disputes == s.disputes[d := s.disputes[d].(status := to)] && t.payments == s.payments && t.ledger == s.ledger
  {
    hide DisputeTargets;
  }

  /** What is refundable covers the concession, and the payment can still be refunded by it. */
  predicate CanConcede(s: State, i: nat, amount: int) {
    && i < |s.payments|
    && (var p, already := s.payments[i], TotalRefunded(s.refunds, i);
        && amount <= p.amount - already
        && (p.status == PaymentStatus.Successful || (p.status == PartiallyRefunded && amount == p.amount - already)))
  }

  lemma ConcededExactlyWhen(s: State, i: nat, amount: int)
    requires amount > 0
    ensures ConcedeRefund(s, i, amount).Ok? <==> CanConcede(s, i, amount)
    ensures ConcedeRefund(s, i, amount).Ok? ==>
              var t := ConcedeRefund(s, i, amount).value;
              && i < |s.payments| && t.refunds == s.refunds + [Refund(i, s.payments[i].book, amount, RefundStatus.Successful)]
              && |t.payments| == |s.payments| && t.payments[i].amountRefunded == TotalRefunded(s.refunds, i) + amount
  {
    if i < |s.payments| {
      var pending := Refund(i, s.payments[i].book, amount, RefundStatus.Pending);
      var settled := pending.(status := RefundStatus.Successful);
      OneMoreRefundCounts(s.refunds, settled, i);
      assert (s.refunds + [pending])[|s.refunds| := settled] == s.refunds + [settled];
    }
    hide TotalRefunded, RefundRow;
  }

  /** A dispute is closed once; a concession of something refunds the payment with it, or refuses the whole call. */
  lemma DisputeResolvedExactlyWhen(s: State, d: nat, accepted: bool, requested: Option<int>)
    requires d < |s.disputes|
    ensures var dispute := s.disputes[d];
            var amount := if requested.Some? then requested.value else dispute.refundAmount;
            && (ResolveDisputeStep(s, d, accepted, requested).Ok? <==>
                  && dispute.status != Resolved && (requested.Some? ==> requested.value >= 0)
                  && (accepted && amount > 0 ==> CanConcede(s, dispute.payment, amount)))
            && (ResolveDisputeStep(s, d, accepted, requested).Ok? ==>
                  var t := ResolveDisputeStep(s, d, accepted, requested).value;
                  && t.disputes == s.disputes[d := Dispute(dispute.payment, Resolved, amount, accepted)]
                  && if accepted && amount > 0
                     then dispute.payment < |s.payments|
                          && t.refunds == s.refunds + [Refund(dispute.payment, s.payments[dispute.payment].book, amount,
                                                              RefundStatus.Successful)]
                     else t.refunds == s.refunds && t.payments == s.payments && t.ledger == s.ledger)
  {
    hide ConcedeRefund, CanConcede;
    var amount := Default(requested, s.disputes[d].refundAmount);
    if accepted && amount > 0 { ConcededExactlyWhen(s, s.disputes[d].payment, amount); }
  }

  /* ---------------------------- what is logged ---------------------------- */

  /** How many events an accepted call appends to the log. */
  function Reports(s: State, op: Op): nat {
    match op
    case CreatePayment(_, _, _, _, _, _) => 1
    case TransitionPayment(i, to, _, _) =>
      if to == PaymentStatus.Successful && i < |s.payments| && s.payments[i].mode == Forwarded
         && s.payments[i].subaccount.Some? && s.payments[i].platformFee < s.payments[i].amount then 2 else 1
    case CreateRefund(_, _, _) => 1
    case TransitionRefund(_, to) => if to == RefundStatus.Successful then 2 else 1
    case CreateTransfer(_) => 1
    case TransitionTransfer(_, _, _) => 1
    case UpdateTransferMetadata(_, _) => 0
    case ReverseTransfer(_, _) => 1
    case RefundPlatformFee(_, _) => 1
    case CreateDispute(_, _) => 1
    case TransitionDispute(_, _) => 1
    case ResolveDispute(d, accepted, requested) =>
      if accepted && d < |s.disputes|
         && (if requested.Some? then requested.value else s.disputes[d].refundAmount) > 0 then 4 else 1
    case CreditBalance(_, _, _, _) => 0
    case DebitBalance(_, _, _, _) => 0
    case ExchangeBalance(_, _, _, _, _, _, _, _, _) => 0
  }

  lemma SettlementReports(s: State, i: nat, to: PaymentStatus, reversal: bool, retry: bool)
    requires TransitionPaymentStep(s, i, to, reversal, retry).Ok? && s.payments[i].platformFee >= 0
    ensures |TransitionPaymentStep(s, i, to, reversal, retry).value.events|
            == |s.events| + Reports(s, TransitionPayment(i, to, reversal, retry))
  {
    hide PaymentTargets, ChargeRows, ReserveRows;
  }

  lemma RefundReports(s: State, op: Op)
    requires (op.CreateRefund? || op.TransitionRefund?) && Try(Config(false, 0), s, op).Ok?
    ensures |Try(Config(false, 0), s, op).value.events| == |s.events| + Reports(s, op)
  {
    hide TotalRefunded, RefundTargets, PaymentTargets;
  }

  lemma DisputeReports(s: State, d: nat, accepted: bool, requested: Option<int>)
    requires ResolveDisputeStep(s, d, accepted, requested).Ok?
    ensures |ResolveDisputeStep(s, d, accepted, requested).value.events|
            == |s.events| + Reports(s, ResolveDispute(d, accepted, requested))
  {
    hide CreateRefundStep, TransitionRefundStep;
    var i, amount := s.disputes[d].payment, Default(requested, s.disputes[d].refundAmount);
    if accepted && amount > 0 {
      RefundReports(s, CreateRefund(i, Some(amount), RefundStatus.Pending));
      var created := CreateRefundStep(s, i, Some(amount), RefundStatus.Pending).value;
      RefundReports(created, TransitionRefund(|s.refunds|, RefundStatus.Successful));
    }
  }

  lemma TransferReports(c: Config, s: State, op: Op)
    requires op.CreateTransfer? || op.TransitionTransfer? || op.UpdateTransferMetadata? || op.ReverseTransfer?
    requires Try(c, s, op).Ok?
    ensures |Try(c, s, op).value.events| == |s.events| + Reports(s, op)
  {
    hide ReserveRows, ReleaseRows, MoveRows, Net, TransferTargets, NewTransfer, AfterReversal;
  }

  lemma OtherReports(c: Config, s: State, op: Op)
    requires op.CreatePayment? || op.CreateDispute? || op.TransitionDispute? || op.RefundPlatformFee?
             || op.CreditBalance? || op.DebitBalance? || op.ExchangeBalance?
    requires Try(c, s, op).Ok?
    ensures |Try(c, s, op).value.events| == |s.events| + Reports(s, op)
  {
    hide TransitionPaymentStep, CreateRefundStep, TransitionRefundStep, ResolveDisputeStep, CreateTransferStep;
    hide TransitionTransferStep, ReverseTransferStep, FeeRefundShare;
  }

  /** Every accepted call reports itself, once for each row it changes the status of; writing metadata, and entries in the
      balances, report nothing. */
  lemma EachCallReports(c: Config, s: State, op: Op)
    requires ChargesValid(s) && Try(c, s, op).Ok?
    ensures |Step(c, s, op).events| == |s.events| + Reports(s, op)
  {
    hide Reports;
    match op
    case TransitionPayment(i, to, reversal, retry) => SettlementReports(s, i, to, reversal, retry);
    case CreateRefund(_, _, _) => RefundReports(s, op);
    case TransitionRefund(_, _) => RefundReports(s, op);
    case ResolveDispute(d, accepted, requested) => DisputeReports(s, d, accepted, requested);
    case CreateTransfer(_) => TransferReports(c, s, op);
    case TransitionTransfer(_, _, _) => TransferReports(c, s, op);
    case UpdateTransferMetadata(_, _) => TransferReports(c, s, op);
    case ReverseTransfer(_, _) => TransferReports(c, s, op);
    case _ => OtherReports(c, s, op);
  }
}
