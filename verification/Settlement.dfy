/** A payment's money reaches the balances exactly once, divided as its mode requires. */
module Settlement {
  import opened Options
  import opened StateMachine
  import opened Storage
  import opened EngineSpec

  /** What settling the payment is worth to one pot: a connected account, charged directly or forwarded to, has what the
      fee leaves of the amount, and the platform the rest. */
  function ShareOf(p: Payment, pot: Pot): int {
    var fee := if p.platformFee < p.amount then p.platformFee else p.amount;
    if pot.book != p.book || (pot.owner.Some? && pot.owner != p.subaccount) then 0
    else if p.mode == Ordinary || p.subaccount.None? then if pot.owner.None? then p.amount else 0
    else if pot.owner.None? then fee
    else p.amount - fee
  }

  /** Charge rows alone: a direct charge is split at once, any other lands with the platform. */
  lemma ChargeRowsAdd(i: nat, p: Payment, weight: Row -> int)
    ensures Sum(ChargeRows(i, p), weight) ==
            weight(ChargeRows(i, p)[0]) + (if |ChargeRows(i, p)| == 2 then weight(ChargeRows(i, p)[1]) else 0)
  {
    var rows := ChargeRows(i, p);
    if |rows| == 2 {
      SumPair(rows[0], rows[1], weight);
    } else {
      SumPair(rows[0], rows[0], weight);
    }
  }

  function ForwardRows(s: State, i: nat, p: Payment): seq<Row> {
    if IsForwarded(p) && ForwardedShare(p) > 0
    then ReserveRows(|s.transfers|, ForwardingTransfer(i, p), 0, false) else []
  }

  lemma SettlementLedger(s: State, i: nat, reversal: bool, retry: bool)
    requires TransitionPaymentStep(s, i, PaymentStatus.Successful, reversal, retry).Ok?
    ensures var p := s.payments[i];
            TransitionPaymentStep(s, i, PaymentStatus.Successful, reversal, retry).value.ledger
            == s.ledger + ChargeRows(i, p) + ForwardRows(s, i, p)
  {
  }

  lemma ForwardRowsAdd(s: State, i: nat, p: Payment, weight: Row -> int)
    ensures Sum(ForwardRows(s, i, p), weight) ==
            if ForwardRows(s, i, p) == [] then 0
            else weight(ForwardRows(s, i, p)[0]) + weight(ForwardRows(s, i, p)[1])
  {
    var rows := ForwardRows(s, i, p);
    if rows != [] { SumPair(rows[0], rows[1], weight); }
  }

  lemma SharesAddUp(s: State, i: nat, p: Payment, pot: Pot)
    requires p.amount > 0 && p.platformFee >= 0
    ensures Sum(ChargeRows(i, p), InPot(pot)) + Sum(ForwardRows(s, i, p), InPot(pot)) == ShareOf(p, pot)
    ensures Sum(ChargeRows(i, p), InBook(pot.book)) + Sum(ForwardRows(s, i, p), InBook(pot.book))
            == if pot.book == p.book then p.amount else 0
  {
    ChargeRowsAdd(i, p, InPot(pot));
    ForwardRowsAdd(s, i, p, InPot(pot));
    ChargeRowsAdd(i, p, InBook(pot.book));
    ForwardRowsAdd(s, i, p, InBook(pot.book));
  }

  /** One settlement moves every pot by exactly its share, and the book by exactly the amount. */
  lemma SettlementDivides(s: State, i: nat, reversal: bool, retry: bool, pot: Pot)
    requires TransitionPaymentStep(s, i, PaymentStatus.Successful, reversal, retry).Ok?
    requires s.payments[i].amount > 0 && s.payments[i].platformFee >= 0
    ensures var t := TransitionPaymentStep(s, i, PaymentStatus.Successful, reversal, retry).value;
            var p := s.payments[i];
            && Net(t.ledger, pot) == Net(s.ledger, pot) + ShareOf(p, pot)
            && BookTotal(t.ledger, pot.book) ==
               BookTotal(s.ledger, pot.book) + (if pot.book == p.book then p.amount else 0)
  {
    var p := s.payments[i];
    SettlementLedger(s, i, reversal, retry);
    SharesAddUp(s, i, p, pot);
    SumPost(s.ledger, ChargeRows(i, p), InPot(pot));
    SumPost(s.ledger + ChargeRows(i, p), ForwardRows(s, i, p), InPot(pot));
    SumPost(s.ledger, ChargeRows(i, p), InBook(pot.book));
    SumPost(s.ledger + ChargeRows(i, p), ForwardRows(s, i, p), InBook(pot.book));
  }

  /** The fields of a payment that no operation rewrites. */
  predicate SameCharge(p: Payment, q: Payment) {
    && q.book == p.book && q.amount == p.amount && q.subaccount == p.subaccount
    && q.mode == p.mode && q.platformFee == p.platformFee
  }

  /** How one step may change a payment row: its status by the table, or not at all. */
  predicate PaymentStep(p: Payment, q: Payment, reversal: bool) {
    && SameCharge(p, q)
    && (q.status == p.status
        || PaymentMoves(p.status, q.status, reversal, true))
  }

  predicate Reverses(op: Op, i: nat) { op.TransitionPayment? && op.payment == i && op.reversal }

  lemma RefundStepsOnPayments(s: State, r: nat, to: RefundStatus, i: nat)
    requires i < |s.payments| && TransitionRefundStep(s, r, to).Ok?
    ensures var t := TransitionRefundStep(s, r, to).value;
            && |t.payments| == |s.payments| && PaymentStep(s.payments[i], t.payments[i], false)
            && (t.payments[i].status == s.payments[i].status
                || t.payments[i].status == Refunded || t.payments[i].status == PartiallyRefunded)
  {
  }

  lemma TransitionPaymentOnPayments(s: State, j: nat, to: PaymentStatus, reversal: bool, retry: bool, i: nat)
    requires i < |s.payments| && TransitionPaymentStep(s, j, to, reversal, retry).Ok?
    ensures var t := TransitionPaymentStep(s, j, to, reversal, retry).value;
            && |t.payments| == |s.payments| && PaymentStep(s.payments[i], t.payments[i], reversal && i == j)
            && t.payments[i].status == (if i == j then to else s.payments[i].status)
  {
    hide ChargeRows, ReserveRows;
  }

  lemma FeeRefundOnPayments(s: State, j: nat, requested: Option<int>, i: nat)
    requires i < |s.payments| && RefundPlatformFeeStep(s, j, requested).Ok?
    ensures var t := RefundPlatformFeeStep(s, j, requested).value;
            && |t.payments| == |s.payments| && PaymentStep(s.payments[i], t.payments[i], false)
            && t.payments[i].status == s.payments[i].status
  {
    hide FeeRefundShare;
  }

  lemma TransferStepOnPayments(c: Config, s: State, op: Op)
    requires op.CreateTransfer? || op.TransitionTransfer? || op.UpdateTransferMetadata? || op.ReverseTransfer?
    ensures Step(c, s, op).payments == s.payments
  {
    hide ReserveRows, ReleaseRows, MoveRows, NewTransfer, AfterReversal, Net;
  }

  lemma OtherStepOnPayments(c: Config, s: State, op: Op)
    requires op.CreatePayment? || op.CreateRefund? || op.CreateDispute? || op.TransitionDispute?
             || op.CreditBalance? || op.DebitBalance? || op.ExchangeBalance?
    ensures s.payments <= Step(c, s, op).payments
    ensures !op.CreatePayment? ==> Step(c, s, op).payments == s.payments
  {
    hide TransitionPaymentStep, TransitionRefundStep, ResolveDisputeStep, CreateTransferStep;
    hide TransitionTransferStep, ReverseTransferStep, RefundPlatformFeeStep;
  }

  lemma StepOnPayment(c: Config, s: State, op: Op, i: nat)
    requires i < |s.payments|
    ensures i < |Step(c, s, op).payments|
    ensures PaymentStep(s.payments[i], Step(c, s, op).payments[i], Reverses(op, i))
  {
    if Try(c, s, op).Ok? {
      match op
      case TransitionPayment(j, to, reversal, retry) => TransitionPaymentOnPayments(s, j, to, reversal, retry, i);
      case TransitionRefund(r, to) => RefundStepsOnPayments(s, r, to, i);
      case ResolveDispute(d, accepted, requested) => ResolveDisputeOnPayment(s, d, accepted, requested, i);
      case RefundPlatformFee(j, requested) => FeeRefundOnPayments(s, j, requested, i);
      case CreateTransfer(_) => TransferStepOnPayments(c, s, op);
      case TransitionTransfer(_, _, _) => TransferStepOnPayments(c, s, op);
      case UpdateTransferMetadata(_, _) => TransferStepOnPayments(c, s, op);
      case ReverseTransfer(_, _) => TransferStepOnPayments(c, s, op);
      case _ => OtherStepOnPayments(c, s, op);
    }
  }

  lemma ResolveDisputeOnPayment(s: State, d: nat, accepted: bool, requested: Option<int>, i: nat)
    requires i < |s.payments| && ResolveDisputeStep(s, d, accepted, requested).Ok?
    ensures var t := ResolveDisputeStep(s, d, accepted, requested).value;
            && |t.payments| == |s.payments| && PaymentStep(s.payments[i], t.payments[i], false)
            && (t.payments[i].status == s.payments[i].status
                || t.payments[i].status == Refunded || t.payments[i].status == PartiallyRefunded)
  {
    var amount := Default(requested, s.disputes[d].refundAmount);
    if accepted && amount > 0 {
      var created := CreateRefundStep(s, s.disputes[d].payment, Some(amount), RefundStatus.Pending).value;
      RefundStepsOnPayments(created, |s.refunds|, RefundStatus.Successful, i);
    }
  }

  /* ---------------------------- over whole runs ---------------------------- */

  predicate Settles(c: Config, s: State, op: Op, i: nat) {
    && op.TransitionPayment? && op.payment == i && op.toPayment == PaymentStatus.Successful
    && Try(c, s, op).Ok?
  }

  /** What a pot gained over a run from the steps that settled payment `i`. */
  function SettlementGain(c: Config, s: State, ops: seq<Op>, i: nat, pot: Pot): int
    decreases ops
  {
    if ops == [] then 0 else
    var t := Step(c, s, ops[0]);
    (if Settles(c, s, ops[0], i) then Net(t.ledger, pot) - Net(s.ledger, pot) else 0)
    + SettlementGain(c, t, ops[1..], i, pot)
  }

  /** What all the pots of a book gained together. */
  function TotalSettlementGain(c: Config, s: State, ops: seq<Op>, i: nat, book: Book): int
    decreases ops
  {
    if ops == [] then 0 else
    var t := Step(c, s, ops[0]);
    (if Settles(c, s, ops[0], i) then BookTotal(t.ledger, book) - BookTotal(s.ledger, book) else 0)
    + TotalSettlementGain(c, t, ops[1..], i, book)
  }

  predicate ChargesValid(s: State) { forall p <- s.payments :: p.amount > 0 && p.platformFee >= 0 }

  lemma StepKeepsCharges(c: Config, s: State, op: Op)
    requires ChargesValid(s)
    ensures ChargesValid(Step(c, s, op))
  {
    var t := Step(c, s, op);
    forall q | q in t.payments ensures q.amount > 0 && q.platformFee >= 0 {
      var i :| 0 <= i < |t.payments| && t.payments[i] == q;
      if i < |s.payments| { StepOnPayment(c, s, op, i); } else { NewPayment(c, s, op, i); }
    }
  }

  lemma PaymentsStay(c: Config, s: State, op: Op)
    requires !op.CreatePayment?
    ensures |Step(c, s, op).payments| == |s.payments|
  {
    if Try(c, s, op).Ok? {
      match op
      case TransitionPayment(j, to, reversal, retry) => TransitionPaymentOnPayments(s, j, to, reversal, retry, j);
      case TransitionRefund(r, to) => if |s.payments| > 0 { RefundStepsOnPayments(s, r, to, 0); }
      case ResolveDispute(d, accepted, requested) =>
        if |s.payments| > 0 { ResolveDisputeOnPayment(s, d, accepted, requested, 0); }
      case RefundPlatformFee(j, requested) => FeeRefundOnPayments(s, j, requested, j);
      case CreateTransfer(_) => TransferStepOnPayments(c, s, op);
      case TransitionTransfer(_, _, _) => TransferStepOnPayments(c, s, op);
      case UpdateTransferMetadata(_, _) => TransferStepOnPayments(c, s, op);
      case ReverseTransfer(_, _) => TransferStepOnPayments(c, s, op);
      case _ => OtherStepOnPayments(c, s, op);
    }
  }

  lemma NewPayment(c: Config, s: State, op: Op, i: nat)
    requires |s.payments| <= i < |Step(c, s, op).payments|
    ensures op.CreatePayment? && i == |s.payments|
    ensures var p := Step(c, s, op).payments[i];
            p.platformFee >= 0 && p.amount > 0 && p.amountRefunded == 0 && p.feeRefunded == 0
  {
    if !op.CreatePayment? { PaymentsStay(c, s, op); }
  }

  predicate WithoutReversal(ops: seq<Op>, i: nat) { forall op <- ops :: !Reverses(op, i) }

  /** The table enters the collected statuses through `successful` and never leaves them. */
  lemma CollectedEntry(from: PaymentStatus, to: PaymentStatus)
    requires PaymentMoves(from, to, false, true)
    ensures Collected(from) ==> Collected(to) && to != PaymentStatus.Successful
    ensures !Collected(from) && Collected(to) ==> to == PaymentStatus.Successful
  {
  }

  /** Only `transitionPayment` takes a payment from uncollected to collected, and only once. */
  lemma SettlesWhenCollected(c: Config, s: State, op: Op, i: nat)
    requires i < |s.payments| && !Reverses(op, i)
    ensures i < |Step(c, s, op).payments|
    ensures Settles(c, s, op, i) <==>
            !Collected(s.payments[i].status) && Collected(Step(c, s, op).payments[i].status)
  {
    StepOnPayment(c, s, op, i);
    var before, after := s.payments[i].status, Step(c, s, op).payments[i].status;
    if before != after { CollectedEntry(before, after); }
    if Settles(c, s, op, i) {
      SettlingCollects(s, i, op.retry);
    } else if !Collected(before) && Collected(after) {
      CollectsBySettling(c, s, op, i);
    }
  }

  lemma SettlingCollects(s: State, i: nat, retry: bool)
    requires TransitionPaymentStep(s, i, PaymentStatus.Successful, false, retry).Ok?
    ensures !Collected(s.payments[i].status)
    ensures var t := TransitionPaymentStep(s, i, PaymentStatus.Successful, false, retry).value;
            i < |t.payments| && t.payments[i].status == PaymentStatus.Successful
  {
  }

  lemma CollectsBySettling(c: Config, s: State, op: Op, i: nat)
    requires i < |s.payments| && !Collected(s.payments[i].status)
    requires i < |Step(c, s, op).payments|
    requires Step(c, s, op).payments[i].status == PaymentStatus.Successful
    ensures Settles(c, s, op, i)
  {
    if Try(c, s, op).Ok? {
      match op
      case TransitionPayment(j, to, reversal, retry) => TransitionPaymentOnPayments(s, j, to, reversal, retry, i);
      case TransitionRefund(r, to) => RefundStepsOnPayments(s, r, to, i);
      case ResolveDispute(d, accepted, requested) => ResolveDisputeOnPayment(s, d, accepted, requested, i);
      case RefundPlatformFee(j, requested) => FeeRefundOnPayments(s, j, requested, i);
      case CreateTransfer(_) => TransferStepOnPayments(c, s, op);
      case TransitionTransfer(_, _, _) => TransferStepOnPayments(c, s, op);
      case UpdateTransferMetadata(_, _) => TransferStepOnPayments(c, s, op);
      case ReverseTransfer(_, _) => TransferStepOnPayments(c, s, op);
      case _ => OtherStepOnPayments(c, s, op);
    }
  }

  lemma OneSettlement(c: Config, s: State, op: Op, i: nat, pot: Pot)
    requires i < |s.payments| && ChargesValid(s) && Settles(c, s, op, i)
    ensures var p, t := s.payments[i], Step(c, s, op);
            && Net(t.ledger, pot) - Net(s.ledger, pot) == ShareOf(p, pot)
            && BookTotal(t.ledger, p.book) - BookTotal(s.ledger, p.book) == p.amount
  {
    SettlementDivides(s, i, op.reversal, op.retry, pot);
    SettlementDivides(s, i, op.reversal, op.retry, Pot(s.payments[i].book, None));
  }

  /* ---------------------------- with reversals ---------------------------- */

  function One(b: bool): int { if b then 1 else 0 }

  /** How many steps of a run settled payment `i`. */
  function SettlementCount(c: Config, s: State, ops: seq<Op>, i: nat): nat
    decreases ops
  {
    if ops == [] then 0 else
    (if Settles(c, s, ops[0], i) then 1 else 0) + SettlementCount(c, Step(c, s, ops[0]), ops[1..], i)
  }

  /** A product the solver need not look into. */
  function Times(x: int, n: int): int { x * n }

  lemma TimesOneMore(x: int, n: int)
    ensures Times(x, n + 1) == Times(x, n) + x && Times(x, 0) == 0
  {
  }

  lemma SameChargeSameShare(p: Payment, q: Payment, pot: Pot)
    requires SameCharge(p, q)
    ensures ShareOf(q, pot) == ShareOf(p, pot)
  {
  }

  lemma AtMostOnce(x: int, n: nat)
    requires n <= 1
    ensures x * n == if n == 1 then x else 0
  {
  }

  /** What the first step of a run gained, and the rest. */
  lemma GainUnfolds(c: Config, s: State, ops: seq<Op>, i: nat, pot: Pot, book: Book)
    requires ops != []
    ensures var t, settles := Step(c, s, ops[0]), Settles(c, s, ops[0], i);
            && SettlementCount(c, s, ops, i) == One(settles) + SettlementCount(c, t, ops[1..], i)
            && SettlementGain(c, s, ops, i, pot) ==
               (if settles then Net(t.ledger, pot) - Net(s.ledger, pot) else 0) + SettlementGain(c, t, ops[1..], i, pot)
            && TotalSettlementGain(c, s, ops, i, book) ==
               (if settles then BookTotal(t.ledger, book) - BookTotal(s.ledger, book) else 0)
               + TotalSettlementGain(c, t, ops[1..], i, book)
  {
    hide Step, Settles, Net, BookTotal;
  }

  lemma StepGain(c: Config, s: State, op: Op, i: nat, pot: Pot)
    requires i < |s.payments| && ChargesValid(s)
    ensures ChargesValid(Step(c, s, op)) && i < |Step(c, s, op).payments|
    ensures var p, t := s.payments[i], Step(c, s, op);
            && SameCharge(p, t.payments[i]) && ShareOf(t.payments[i], pot) == ShareOf(p, pot)
            && (Settles(c, s, op, i) ==>
                  && Net(t.ledger, pot) - Net(s.ledger, pot) == ShareOf(p, pot)
                  && BookTotal(t.ledger, p.book) - BookTotal(s.ledger, p.book) == p.amount)
  {
    hide ShareOf, Net, BookTotal, Step;
    StepOnPayment(c, s, op, i);
    StepKeepsCharges(c, s, op);
    SameChargeSameShare(s.payments[i], Step(c, s, op).payments[i], pot);
    if Settles(c, s, op, i) { OneSettlement(c, s, op, i, pot); }
  }

  lemma {:induction false} SettlementsAddUp(c: Config, s: State, ops: seq<Op>, i: nat, pot: Pot)
    requires i < |s.payments| && ChargesValid(s)
    ensures var n := SettlementCount(c, s, ops, i);
            && SettlementGain(c, s, ops, i, pot) == Times(ShareOf(s.payments[i], pot), n)
            && TotalSettlementGain(c, s, ops, i, s.payments[i].book) == Times(s.payments[i].amount, n)
    ensures i < |Run(c, s, ops).payments| && SameCharge(s.payments[i], Run(c, s, ops).payments[i])
    decreases ops
  {
    hide Times, ShareOf, Step, Settles, Net, BookTotal, ChargesValid;
    if ops == [] {
      TimesOneMore(ShareOf(s.payments[i], pot), 0);
      TimesOneMore(s.payments[i].amount, 0);
    } else {
      var t := Step(c, s, ops[0]);
      StepGain(c, s, ops[0], i, pot);
      SettlementsAddUp(c, t, ops[1..], i, pot);
      GainUnfolds(c, s, ops, i, pot, s.payments[i].book);
      hide SettlementGain, TotalSettlementGain, SettlementCount;
      var rest := SettlementCount(c, t, ops[1..], i);
      TimesOneMore(ShareOf(s.payments[i], pot), rest);
      TimesOneMore(s.payments[i].amount, rest);
    }
  }

  /** Whatever the run does, every settlement pays every pot its share once more. */
  lemma EachSettlementPaysItsShare(c: Config, s: State, ops: seq<Op>, i: nat, pot: Pot)
    requires i < |s.payments| && ChargesValid(s)
    ensures var n := SettlementCount(c, s, ops, i);
            && SettlementGain(c, s, ops, i, pot) == ShareOf(s.payments[i], pot) * n
            && TotalSettlementGain(c, s, ops, i, s.payments[i].book) == s.payments[i].amount * n
    ensures i < |Run(c, s, ops).payments| && SameCharge(s.payments[i], Run(c, s, ops).payments[i])
  {
    SettlementsAddUp(c, s, ops, i, pot);
    hide ShareOf, Run, SettlementGain, TotalSettlementGain, SettlementCount, ChargesValid;
  }

  /** A simulated reversal that takes a fully refunded payment back: to `successful`, or out of the collected statuses. */
  predicate Reopens(c: Config, s: State, op: Op, i: nat) {
    && op.TransitionPayment? && op.payment == i && Try(c, s, op).Ok?
    && s.payments[i].status == Refunded && op.toPayment != PartiallyRefunded
  }

  /** A simulated reversal that marks an uncollected payment as refunded, which no money has reached. */
  predicate SkipsSettlement(c: Config, s: State, op: Op, i: nat) {
    && op.TransitionPayment? && op.payment == i && Try(c, s, op).Ok?
    && !Collected(s.payments[i].status) && (op.toPayment == Refunded || op.toPayment == PartiallyRefunded)
  }

  function ReopenCount(c: Config, s: State, ops: seq<Op>, i: nat): nat
    decreases ops
  {
    if ops == [] then 0 else
    (if Reopens(c, s, ops[0], i) then 1 else 0) + ReopenCount(c, Step(c, s, ops[0]), ops[1..], i)
  }

  function SkipCount(c: Config, s: State, ops: seq<Op>, i: nat): nat
    decreases ops
  {
    if ops == [] then 0 else
    (if SkipsSettlement(c, s, ops[0], i) then 1 else 0) + SkipCount(c, Step(c, s, ops[0]), ops[1..], i)
  }

  lemma TransitionCounts(c: Config, s: State, op: Op, i: nat)
    requires i < |s.payments| && op.TransitionPayment? && op.payment == i && Try(c, s, op).Ok?
    ensures i < |Step(c, s, op).payments|
    ensures One(Settles(c, s, op, i)) ==
            One(Collected(Step(c, s, op).payments[i].status)) - One(Collected(s.payments[i].status))
            + One(Reopens(c, s, op, i)) - One(SkipsSettlement(c, s, op, i))
    ensures Reopens(c, s, op, i) || SkipsSettlement(c, s, op, i) ==> Reverses(op, i)
  {
    TransitionPaymentOnPayments(s, i, op.toPayment, op.reversal, op.retry, i);
    hide ChargeRows, InsertReserved, PostRows;
  }

  lemma StepCounts(c: Config, s: State, op: Op, i: nat)
    requires i < |s.payments|
    ensures i < |Step(c, s, op).payments|
    ensures One(Settles(c, s, op, i)) ==
            One(Collected(Step(c, s, op).payments[i].status)) - One(Collected(s.payments[i].status))
            + One(Reopens(c, s, op, i)) - One(SkipsSettlement(c, s, op, i))
    ensures Reopens(c, s, op, i) || SkipsSettlement(c, s, op, i) ==> Reverses(op, i)
  {
    if op.TransitionPayment? && op.payment == i {
      if Try(c, s, op).Ok? { TransitionCounts(c, s, op, i); }
    } else {
      SettlesWhenCollected(c, s, op, i);
      StepOnPayment(c, s, op, i);
      var before, after := s.payments[i].status, Step(c, s, op).payments[i].status;
      if before != after { CollectedEntry(before, after); }
      hide Try, Step;
    }
  }

  /** The exact number of settlements of a run: one on becoming collected, and one for each reopening. */
  lemma {:induction false} SettlementsCounted(c: Config, s: State, ops: seq<Op>, i: nat)
    requires i < |s.payments|
    ensures i < |Run(c, s, ops).payments|
    ensures SettlementCount(c, s, ops, i) ==
            One(Collected(Run(c, s, ops).payments[i].status)) - One(Collected(s.payments[i].status))
            + ReopenCount(c, s, ops, i) - SkipCount(c, s, ops, i)
    ensures WithoutReversal(ops, i) ==> ReopenCount(c, s, ops, i) == 0 && SkipCount(c, s, ops, i) == 0
    decreases ops
  {
    if ops != [] {
      StepCounts(c, s, ops[0], i);
      hide Settles, Reopens, SkipsSettlement, Step;
      SettlementsCounted(c, Step(c, s, ops[0]), ops[1..], i);
    }
  }

  /** Retries allowed, reversals not: settled at most once, and exactly when the status says so. */
  lemma SettledExactlyOnce(c: Config, s: State, ops: seq<Op>, i: nat, pot: Pot)
    requires i < |s.payments| && ChargesValid(s) && WithoutReversal(ops, i)
    ensures i < |Run(c, s, ops).payments|
    ensures var p, q := s.payments[i], Run(c, s, ops).payments[i];
            var settled := Collected(q.status) && !Collected(p.status);
            && SameCharge(p, q)
            && (Collected(p.status) ==> Collected(q.status))
            && SettlementGain(c, s, ops, i, pot) == (if settled then ShareOf(p, pot) else 0)
            && TotalSettlementGain(c, s, ops, i, p.book) == (if settled then p.amount else 0)
  {
    EachSettlementPaysItsShare(c, s, ops, i, pot);
    SettlementsCounted(c, s, ops, i);
    hide ShareOf, Run, SettlementGain, TotalSettlementGain, SettlementCount, ReopenCount, SkipCount;
    var n := SettlementCount(c, s, ops, i);
    assert n == 0 || n == 1;
    AtMostOnce(ShareOf(s.payments[i], pot), n);
    AtMostOnce(s.payments[i].amount, n);
  }

  /** A payment that is collected already is settled again by one call only. */
  lemma SettlesAgainExactlyWhen(c: Config, s: State, op: Op, i: nat)
    requires i < |s.payments| && Collected(s.payments[i].status)
    ensures Settles(c, s, op, i) <==>
            && op.TransitionPayment? && op.payment == i && op.toPayment == PaymentStatus.Successful && op.reversal
            && s.payments[i].status == Refunded && Try(c, s, op).Ok?
  {
    hide ChargeRows, InsertReserved, PostRows;
  }

  /** Paid, refunded in full, and taken back to successful: the book has collected twice and refunded once. */
  lemma SettledAgainAfterRefund(c: Config, s: State, book: Book)
    requires s.payments == [Payment(book, 100, Refunded, 100, None, Ordinary, 0, 0)]
    ensures var op := TransitionPayment(0, PaymentStatus.Successful, true, false);
            && Settles(c, s, op, 0)
            && BookTotal(Step(c, s, op).ledger, book) == BookTotal(s.ledger, book) + 100
  {
    var op := TransitionPayment(0, PaymentStatus.Successful, true, false);
    assert Settles(c, s, op, 0);
    OneSettlement(c, s, op, 0, Pot(book, None));
  }

  /* ---------------------------- settlements in the log ---------------------------- */

  /** The event of a payment entering `successful`; one that only reports it again leaves the status as it was. */
  predicate IsSettlement(e: Event, i: nat) {
    && e.resource == PaymentId(i) && e.previous.Some? && e.current == Some(OfPayment(PaymentStatus.Successful))
    && e.previous != e.current
  }

  function SettlementOf(i: nat): Event -> int { (e: Event) => if IsSettlement(e, i) then 1 else 0 }

  /** How often the log says the payment was settled. */
  function SettledTimes(events: seq<Event>, i: nat): int { Sum(events, SettlementOf(i)) }

  /** The log grows, and reports no settlement. */
  ghost predicate Uneventful(s: State, t: State) {
    && |s.events| <= |t.events| && t.events[..|s.events|] == s.events
    && (forall k, i :: |s.events| <= k < |t.events| ==> !IsSettlement(t.events[k], i))
  }

  lemma UneventfulTwice(s: State, t: State, u: State)
    requires Uneventful(s, t) && Uneventful(t, u)
    ensures Uneventful(s, u)
  {
    assert u.events[..|s.events|] == u.events[..|t.events|][..|s.events|];
    forall k, i | |s.events| <= k < |u.events| ensures !IsSettlement(u.events[k], i) {
      if k < |t.events| { assert u.events[..|t.events|][k] == t.events[k]; }
    }
  }

  lemma {:induction false} NoSettlements(events: seq<Event>, i: nat)
    requires forall e <- events :: !IsSettlement(e, i)
    ensures SettledTimes(events, i) == 0
  {
    if events != [] { NoSettlements(events[..|events| - 1], i); }
  }

  lemma UneventfulSettlesNothing(s: State, t: State, i: nat)
    requires Uneventful(s, t)
    ensures SettledTimes(t.events, i) == SettledTimes(s.events, i)
  {
    var more := t.events[|s.events|..];
    assert t.events == s.events + more;
    SumPost(s.events, more, SettlementOf(i));
    NoSettlements(more, i);
  }

  lemma RefundStepUneventful(s: State, op: Op)
    requires op.CreateRefund? || op.TransitionRefund?
    requires Try(Config(false, 0), s, op).Ok?
    ensures Uneventful(s, Try(Config(false, 0), s, op).value)
  {
    hide TransitionPaymentStep, ResolveDisputeStep, CreateTransferStep, TotalRefunded;
    hide TransitionTransferStep, ReverseTransferStep, RefundPlatformFeeStep;
  }

  lemma ResolveDisputeUneventful(s: State, d: nat, accepted: bool, requested: Option<int>)
    requires ResolveDisputeStep(s, d, accepted, requested).Ok?
    ensures Uneventful(s, ResolveDisputeStep(s, d, accepted, requested).value)
  {
    hide CreateRefundStep, TransitionRefundStep;
    var i, amount := s.disputes[d].payment, Default(requested, s.disputes[d].refundAmount);
    if accepted && amount > 0 {
      var created := CreateRefundStep(s, i, Some(amount), RefundStatus.Pending).value;
      var settled := TransitionRefundStep(created, |s.refunds|, RefundStatus.Successful).value;
      RefundStepUneventful(s, CreateRefund(i, Some(amount), RefundStatus.Pending));
      RefundStepUneventful(created, TransitionRefund(|s.refunds|, RefundStatus.Successful));
      UneventfulTwice(s, created, settled);
      UneventfulTwice(s, settled, ResolveDisputeStep(s, d, accepted, requested).value);
    }
  }

  lemma TransferStepUneventful(c: Config, s: State, op: Op)
    requires op.CreateTransfer? || op.TransitionTransfer? || op.UpdateTransferMetadata? || op.ReverseTransfer?
    requires Try(c, s, op).Ok?
    ensures Uneventful(s, Try(c, s, op).value)
  {
    hide ReserveRows, ReleaseRows, MoveRows, NewTransfer, AfterReversal, Net;
  }

  lemma OtherStepUneventful(c: Config, s: State, op: Op)
    requires op.CreatePayment? || op.RefundPlatformFee? || op.CreateDispute? || op.TransitionDispute?
             || op.CreditBalance? || op.DebitBalance? || op.ExchangeBalance?
    requires Try(c, s, op).Ok?
    ensures Uneventful(s, Try(c, s, op).value)
  {
    hide TransitionPaymentStep, CreateRefundStep, TransitionRefundStep, ResolveDisputeStep, CreateTransferStep;
    hide TransitionTransferStep, ReverseTransferStep;
    hide FeeRefundShare;
  }

  lemma TransitionPaymentEvents(s: State, j: nat, to: PaymentStatus, reversal: bool, retry: bool)
    requires TransitionPaymentStep(s, j, to, reversal, retry).Ok?
    ensures j < |s.payments|
    ensures var moved, t := s.UpdatePayment(j, s.payments[j].(status := to)),
                            TransitionPaymentStep(s, j, to, reversal, retry).value;
            && s.payments[j].status != to
            && |moved.events| == |s.events| + 1 && moved.events == s.events + [moved.events[|s.events|]]
            && (t.events == moved.events
                || (|t.events| == |moved.events| + 1 && t.events == moved.events + [t.events[|moved.events|]]
                    && t.events[|moved.events|].resource.TransferId?))
  {
    hide ChargeRows, ReserveRows, PaymentTargets;
  }

  lemma TransitionPaymentLogs(s: State, j: nat, to: PaymentStatus, reversal: bool, retry: bool, i: nat)
    requires TransitionPaymentStep(s, j, to, reversal, retry).Ok?
    ensures SettledTimes(TransitionPaymentStep(s, j, to, reversal, retry).value.events, i) ==
            SettledTimes(s.events, i) + One(i == j && to == PaymentStatus.Successful)
  {
    TransitionPaymentEvents(s, j, to, reversal, retry);
    hide TransitionPaymentStep, Sum;
    var moved := s.UpdatePayment(j, s.payments[j].(status := to));
    var t := TransitionPaymentStep(s, j, to, reversal, retry).value;
    SumOne(s.events, moved.events[|s.events|], SettlementOf(i));
    if t.events != moved.events { SumOne(moved.events, t.events[|moved.events|], SettlementOf(i)); }
  }

  /** The log of every step reports exactly the settlements the step made. */
  lemma StepLogsSettlement(c: Config, s: State, op: Op, i: nat)
    ensures SettledTimes(Step(c, s, op).events, i) == SettledTimes(s.events, i) + One(Settles(c, s, op, i))
  {
    hide SettledTimes, Uneventful;
    if Try(c, s, op).Err? { return; }
    match op
    case TransitionPayment(j, to, reversal, retry) => TransitionPaymentLogs(s, j, to, reversal, retry, i);
    case CreateRefund(_, _, _) =>
      RefundStepUneventful(s, op);
      UneventfulSettlesNothing(s, Try(c, s, op).value, i);
    case TransitionRefund(_, _) =>
      RefundStepUneventful(s, op);
      UneventfulSettlesNothing(s, Try(c, s, op).value, i);
    case ResolveDispute(d, accepted, requested) =>
      ResolveDisputeUneventful(s, d, accepted, requested);
      UneventfulSettlesNothing(s, Try(c, s, op).value, i);
    case _ =>
      if op.CreateTransfer? || op.TransitionTransfer? || op.UpdateTransferMetadata? || op.ReverseTransfer? {
        TransferStepUneventful(c, s, op);
      } else {
        OtherStepUneventful(c, s, op);
      }
      UneventfulSettlesNothing(s, Try(c, s, op).value, i);
  }

  /** So the log counts the settlements of a run. */
  lemma {:induction false} LogCountsSettlements(c: Config, s: State, ops: seq<Op>, i: nat)
    ensures SettledTimes(Run(c, s, ops).events, i) == SettledTimes(s.events, i) + SettlementCount(c, s, ops, i)
    decreases ops
  {
    if ops != [] {
      StepLogsSettlement(c, s, ops[0], i);
      hide SettledTimes, Settles, Step;
      LogCountsSettlements(c, Step(c, s, ops[0]), ops[1..], i);
    }
  }
}
