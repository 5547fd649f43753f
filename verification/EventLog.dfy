/** The event log and the rows it projects to agree in every reachable state. */
module EventLog {
  import opened Options
  import opened StateMachine
  import opened Storage
  import opened EngineSpec

  /** The status on a resource's row, if there is such a row. */
  function StatusOf(s: State, id: Id): Option<Status> {
    match id
    case PaymentId(n) => if n < |s.payments| then Some(OfPayment(s.payments[n].status)) else None
    case RefundId(n) => if n < |s.refunds| then Some(OfRefund(s.refunds[n].status)) else None
    case TransferId(n) => if n < |s.transfers| then Some(OfTransfer(s.transfers[n].status)) else None
    case DisputeId(n) => if n < |s.disputes| then Some(OfDispute(s.disputes[n].status)) else None
  }

  /** `events.listByResource`: the resource's events in log order. */
  function Timeline(events: seq<Event>, id: Id): seq<Event> {
    if events == [] then [] else
    var rest := Timeline(events[..|events| - 1], id);
    var last := events[|events| - 1];
    if last.resource == id then rest + [last] else rest
  }

  /** The status the resource has after the first `k` of its events. */
  function StatusAfter(timeline: seq<Event>, k: nat): Option<Status>
    requires k <= |timeline|
  {
    if k == 0 then None else timeline[k - 1].current
  }

  /** Numbered 1..n without a gap, each event starting where the one before ended. */
  predicate Chained(timeline: seq<Event>) {
    forall k :: 0 <= k < |timeline| ==>
      && timeline[k].sequence == k + 1
      && timeline[k].current.Some?
      && timeline[k].previous == StatusAfter(timeline, k)
  }

  /** The timeline is well formed, ends at the given status, and its length is the stored counter. */
  predicate Narrates(timeline: seq<Event>, status: Option<Status>, sequences: map<Id, nat>, id: Id) {
    && Chained(timeline)
    && StatusAfter(timeline, |timeline|) == status
    && (if id in sequences then sequences[id] == |timeline| else timeline == [])
  }

  predicate Agrees(s: State, id: Id) {
    Narrates(Timeline(s.events, id), StatusOf(s, id), s.sequences, id)
  }

  ghost predicate LogAgrees(s: State) { forall id :: Agrees(s, id) }

  lemma TimelineAppend(events: seq<Event>, e: Event, id: Id)
    ensures Timeline(events + [e], id) ==
            if e.resource == id then Timeline(events, id) + [e] else Timeline(events, id)
  {
    assert (events + [e])[..|events|] == events;
  }

  /** A row written together with the event that reports it. */
  ghost predicate Logged(s: State, t: State, id: Id) {
    && StatusOf(t, id).Some?
    && (var logged := s.Append(id, StatusOf(s, id), StatusOf(t, id));
        t.events == logged.events && t.sequences == logged.sequences)
    && (forall other :: other != id ==> StatusOf(t, other) == StatusOf(s, other))
  }

  lemma NarrationGrows(timeline: seq<Event>, e: Event, status: Option<Status>, sequences: map<Id, nat>)
    requires Narrates(timeline, status, sequences, e.resource)
    requires e.previous == status && e.current.Some? && e.sequence == |timeline| + 1
    ensures Narrates(timeline + [e], e.current, sequences[e.resource := e.sequence], e.resource)
  {
    var grown := timeline + [e];
    forall k | 0 <= k < |grown|
      ensures grown[k].previous == StatusAfter(grown, k)
    {
      if k < |timeline| {
        assert timeline[k].previous == StatusAfter(timeline, k);
      }
    }
  }

  lemma LoggedKeepsLog(s: State, t: State, id: Id)
    requires LogAgrees(s) && Logged(s, t, id)
    ensures LogAgrees(t)
  {
    assert Agrees(s, id);
    var e := s.Append(id, StatusOf(s, id), StatusOf(t, id)).events[|s.events|];
    assert t.events == s.events + [e] && t.sequences == s.sequences[id := e.sequence];
    NarrationGrows(Timeline(s.events, id), e, StatusOf(s, id), s.sequences);
    forall other ensures Agrees(t, other) {
      assert Agrees(s, other);
      TimelineAppend(s.events, e, other);
    }
  }

  /** A step that writes neither a status nor an event. */
  lemma SilentKeepsLog(s: State, t: State)
    requires LogAgrees(s)
    requires t.events == s.events && t.sequences == s.sequences
    requires forall id :: StatusOf(t, id) == StatusOf(s, id)
    ensures LogAgrees(t)
  {
    forall id ensures Agrees(t, id) { assert Agrees(s, id); }
  }

  lemma TransitionPaymentKeepsLog(s: State, i: nat, to: PaymentStatus, reversal: bool, retry: bool)
    requires LogAgrees(s) && TransitionPaymentStep(s, i, to, reversal, retry).Ok?
    ensures LogAgrees(TransitionPaymentStep(s, i, to, reversal, retry).value)
  {
    var p := s.payments[i];
    var moved := s.UpdatePayment(i, p.(status := to));
    PaymentUpdateKeepsLog(s, i, p.(status := to));
    if to == PaymentStatus.Successful {
      var charged := moved.Post(ChargeRows(i, p));
      SilentKeepsLog(moved, charged);
      InsertTransferKeepsLog(charged, ForwardingTransfer(i, p));
      SilentKeepsLog(charged.InsertTransfer(ForwardingTransfer(i, p)),
                     charged.InsertTransfer(ForwardingTransfer(i, p))
                     .Post(ReserveRows(|s.transfers|, ForwardingTransfer(i, p), 0, false)));
    }
  }

  lemma InsertTransferKeepsLog(s: State, transfer: Transfer)
    requires LogAgrees(s)
    ensures LogAgrees(s.InsertTransfer(transfer))
  {
    LoggedKeepsLog(s, s.InsertTransfer(transfer), TransferId(|s.transfers|));
  }

  lemma CreateRefundKeepsLog(s: State, i: nat, requested: Option<int>, status: RefundStatus)
    requires LogAgrees(s) && CreateRefundStep(s, i, requested, status).Ok?
    ensures LogAgrees(CreateRefundStep(s, i, requested, status).value)
  {
    LoggedKeepsLog(s, CreateRefundStep(s, i, requested, status).value, RefundId(|s.refunds|));
  }

  lemma RefundUpdateKeepsLog(s: State, r: nat, refund: Refund)
    requires LogAgrees(s) && r < |s.refunds|
    ensures LogAgrees(s.UpdateRefund(r, refund))
  {
    LoggedKeepsLog(s, s.UpdateRefund(r, refund), RefundId(r));
  }

  lemma PaymentUpdateKeepsLog(s: State, i: nat, p: Payment)
    requires LogAgrees(s) && i < |s.payments|
    ensures LogAgrees(s.UpdatePayment(i, p))
  {
    LoggedKeepsLog(s, s.UpdatePayment(i, p), PaymentId(i));
  }

  lemma TransitionRefundKeepsLog(s: State, r: nat, to: RefundStatus)
    requires LogAgrees(s) && TransitionRefundStep(s, r, to).Ok?
    ensures LogAgrees(TransitionRefundStep(s, r, to).value)
  {
    hide LogAgrees, TotalRefunded, PaymentMoves, RefundMoves, RefundedStatus, RefundRow, Logged;
    var refund := s.refunds[r];
    var moved := s.UpdateRefund(r, refund.(status := to));
    RefundUpdateKeepsLog(s, r, refund.(status := to));
    if to == RefundStatus.Successful {
      var p := s.payments[refund.payment];
      var total := TotalRefunded(moved.refunds, refund.payment);
      var paid := moved.UpdatePayment(refund.payment, p.(status := RefundedStatus(p.amount, total), amountRefunded := total));
      PaymentUpdateKeepsLog(moved, refund.payment, paid.payments[refund.payment]);
      SilentKeepsLog(paid, TransitionRefundStep(s, r, to).value);
    }
  }

  lemma ConcedeRefundKeepsLog(s: State, i: nat, amount: int)
    requires LogAgrees(s) && ConcedeRefund(s, i, amount).Ok?
    ensures LogAgrees(ConcedeRefund(s, i, amount).value)
  {
    CreateRefundKeepsLog(s, i, Some(amount), RefundStatus.Pending);
    TransitionRefundKeepsLog(CreateRefundStep(s, i, Some(amount), RefundStatus.Pending).value,
                             |s.refunds|, RefundStatus.Successful);
  }

  lemma CloseDisputeKeepsLog(s: State, d: nat, accepted: bool, amount: int)
    requires LogAgrees(s) && d < |s.disputes|
    ensures LogAgrees(CloseDispute(s, d, accepted, amount))
  {
    LoggedKeepsLog(s, CloseDispute(s, d, accepted, amount), DisputeId(d));
  }

  lemma ResolveDisputeKeepsLog(s: State, d: nat, accepted: bool, requested: Option<int>)
    requires LogAgrees(s) && ResolveDisputeStep(s, d, accepted, requested).Ok?
    ensures LogAgrees(ResolveDisputeStep(s, d, accepted, requested).value)
  {
    var i, amount := s.disputes[d].payment, Default(requested, s.disputes[d].refundAmount);
    if accepted && amount > 0 {
      ConcedeRefundKeepsLog(s, i, amount);
      CloseDisputeKeepsLog(ConcedeRefund(s, i, amount).value, d, accepted, amount);
    } else {
      CloseDisputeKeepsLog(s, d, accepted, amount);
    }
  }

  lemma CreateTransferKeepsLog(c: Config, s: State, input: TransferInput)
    requires LogAgrees(s) && CreateTransferStep(c, s, input).Ok?
    ensures LogAgrees(CreateTransferStep(c, s, input).value)
  {
    InsertTransferKeepsLog(s, NewTransfer(input));
    SilentKeepsLog(s.InsertTransfer(NewTransfer(input)), CreateTransferStep(c, s, input).value);
  }

  lemma TransitionTransferKeepsLog(s: State, t: nat, to: TransferStatus, patch: TransferMeta)
    requires LogAgrees(s) && TransitionTransferStep(s, t, to, patch).Ok?
    ensures LogAgrees(TransitionTransferStep(s, t, to, patch).value)
  {
    var updated := s.transfers[t].(status := to, meta := s.transfers[t].meta.Merge(patch));
    LoggedKeepsLog(s, s.UpdateTransfer(t, updated), TransferId(t));
    SilentKeepsLog(s.UpdateTransfer(t, updated), TransitionTransferStep(s, t, to, patch).value);
  }

  lemma ReverseTransferKeepsLog(c: Config, s: State, t: nat, amount: Option<int>)
    requires LogAgrees(s) && ReverseTransferStep(c, s, t, amount).Ok?
    ensures LogAgrees(ReverseTransferStep(c, s, t, amount).value)
  {
    var transfer := s.transfers[t];
    var requested := Default(amount, transfer.amount - transfer.amountReversed);
    var moved := s.UpdateTransfer(t, AfterReversal(transfer, requested));
    LoggedKeepsLog(s, moved, TransferId(t));
    SilentKeepsLog(moved, ReverseTransferStep(c, s, t, amount).value);
  }

  lemma PaymentRowStepKeepsLog(c: Config, s: State, op: Op)
    requires op.CreatePayment? || op.RefundPlatformFee?
    requires LogAgrees(s) && Try(c, s, op).Ok?
    ensures LogAgrees(Try(c, s, op).value)
  {
    hide TransitionPaymentStep, CreateRefundStep, TransitionRefundStep, ResolveDisputeStep, CreateTransferStep;
    hide TransitionTransferStep, ReverseTransferStep;
    hide FeeRefundShare;
    LoggedKeepsLog(s, Try(c, s, op).value,
                   if op.CreatePayment? then PaymentId(|s.payments|) else PaymentId(op.payment));
  }

  lemma DisputeStepKeepsLog(c: Config, s: State, op: Op)
    requires op.CreateDispute? || op.TransitionDispute?
    requires LogAgrees(s) && Try(c, s, op).Ok?
    ensures LogAgrees(Try(c, s, op).value)
  {
    hide TransitionPaymentStep, CreateRefundStep, TransitionRefundStep, ResolveDisputeStep, CreateTransferStep;
    hide TransitionTransferStep, ReverseTransferStep, RefundPlatformFeeStep;
    LoggedKeepsLog(s, Try(c, s, op).value,
                   if op.CreateDispute? then DisputeId(|s.disputes|) else DisputeId(op.dispute));
  }

  lemma SilentStepKeepsLog(c: Config, s: State, op: Op)
    requires op.UpdateTransferMetadata? || op.CreditBalance? || op.DebitBalance? || op.ExchangeBalance?
    requires LogAgrees(s) && Try(c, s, op).Ok?
    ensures LogAgrees(Try(c, s, op).value)
  {
    hide TransitionPaymentStep, CreateRefundStep, TransitionRefundStep, ResolveDisputeStep, CreateTransferStep;
    hide TransitionTransferStep, ReverseTransferStep, RefundPlatformFeeStep;
    SilentKeepsLog(s, Try(c, s, op).value);
  }

  lemma StepKeepsLog(c: Config, s: State, op: Op)
    requires LogAgrees(s)
    ensures LogAgrees(Step(c, s, op))
  {
    if Try(c, s, op).Ok? {
      match op
      case TransitionPayment(i, to, reversal, retry) => TransitionPaymentKeepsLog(s, i, to, reversal, retry);
      case CreateRefund(i, requested, status) => CreateRefundKeepsLog(s, i, requested, status);
      case TransitionRefund(i, to) => TransitionRefundKeepsLog(s, i, to);
      case ResolveDispute(d, accepted, requested) => ResolveDisputeKeepsLog(s, d, accepted, requested);
      case CreateTransfer(input) => CreateTransferKeepsLog(c, s, input);
      case TransitionTransfer(i, to, patch) => TransitionTransferKeepsLog(s, i, to, patch);
      case ReverseTransfer(i, requested) => ReverseTransferKeepsLog(c, s, i, requested);
      case CreatePayment(_, _, _, _, _, _) => PaymentRowStepKeepsLog(c, s, op);
      case RefundPlatformFee(_, _) => PaymentRowStepKeepsLog(c, s, op);
      case CreateDispute(_, _) => DisputeStepKeepsLog(c, s, op);
      case TransitionDispute(_, _) => DisputeStepKeepsLog(c, s, op);
      case UpdateTransferMetadata(_, _) => SilentStepKeepsLog(c, s, op);
      case CreditBalance(_, _, _, _) => SilentStepKeepsLog(c, s, op);
      case DebitBalance(_, _, _, _) => SilentStepKeepsLog(c, s, op);
      case ExchangeBalance(_, _, _, _, _, _, _, _, _) => SilentStepKeepsLog(c, s, op);
    }
  }

  /** In every reachable state, every timeline tells exactly how its row got its status. */
  lemma {:induction false} LogAndProjectionAgree(c: Config, s: State, ops: seq<Op>)
    requires LogAgrees(s)
    ensures LogAgrees(Run(c, s, ops))
    decreases ops
  {
    if ops != [] {
      StepKeepsLog(c, s, ops[0]);
      LogAndProjectionAgree(c, Step(c, s, ops[0]), ops[1..]);
    }
  }

  lemma EmptyLogAgrees()
    ensures LogAgrees(EMPTY)
  {
    forall id ensures Agrees(EMPTY, id) {}
  }
}
