/** What one call moves between the balances, said over the rows it is about. */
module Movements {
  import opened Options
  import opened StateMachine
  import opened Storage
  import opened EngineSpec
  import opened Settlement
  import opened Accounts
  import opened Solvency
  import Conservation
  import Transfers

  /** What an owner can spend. */
  function Spendable(c: Config, s: State, book: Book, owner: Owner): int {
    Net(s.ledger, Pot(book, owner)) + if owner == None then c.opening else 0
  }

  /** A pot gains what comes in and loses what goes out; one that is both does both. */
  function Moved(pot: Pot, from: Pot, out: int, to: Pot, in_: int): int {
    (if pot == to then in_ else 0) - (if pot == from then out else 0)
  }

  lemma TwoRowsGain(s: State, t: State, a: Row, b: Row, pot: Pot)
    requires t.ledger == s.ledger + [a, b]
    ensures Gained(s, t, pot) == (if pot == a.pot then a.Signed() else 0) + (if pot == b.pot then b.Signed() else 0)
  {
    SumPost(s.ledger, [a, b], InPot(pot));
    SumPair(a, b, InPot(pot));
  }

  /* ---------------------------- entries and exchanges ---------------------------- */

  lemma EntryMoves(c: Config, s: State, op: Op, pot: Pot)
    requires op.CreditBalance? || op.DebitBalance?
    ensures Try(c, s, op).Ok? <==> op.amount > 0
    ensures Try(c, s, op).Ok? ==>
              Gained(s, Try(c, s, op).value, pot)
              == if pot != op.pot then 0 else if op.CreditBalance? then op.amount else -op.amount
  {
    hide Net;
    if Try(c, s, op).Ok? {
      OneRowGains(s, Try(c, s, op).value, Row(op.pot, op.CreditBalance?, op.amount, External(op.text), op.about), pot);
    }
  }

  /** An exchange takes what is sold from one pot, puts what is bought into the same owner's other one, and touches no third. */
  lemma ExchangeMoves(c: Config, s: State, op: Op, pot: Pot)
    requires op.ExchangeBalance?
    ensures Try(c, s, op).Ok? <==>
            && op.fromAmount > 0 && op.toAmount > 0 && op.from != op.to
            && (op.checkFunds && c.enforce ==> op.fromAmount <= Spendable(c, s, Book(op.provider, op.from), op.owner))
    ensures Try(c, s, op).Ok? ==>
              Gained(s, Try(c, s, op).value, pot)
              == Moved(pot, Pot(Book(op.provider, op.from), op.owner), op.fromAmount,
                       Pot(Book(op.provider, op.to), op.owner), op.toAmount)
  {
    hide Net;
    if Try(c, s, op).Ok? {
      TwoRowsGain(s, Try(c, s, op).value,
                  Row(Pot(Book(op.provider, op.from), op.owner), false, op.fromAmount, External(op.text), op.about),
                  Row(Pot(Book(op.provider, op.to), op.owner), true, op.toAmount, External(op.text), op.about), pot);
    }
  }

  /* ---------------------------- transfers ---------------------------- */

  /** A transfer is refused for want of funds only where they are enforced and it reserves them, its fee counted. */
  lemma TransferMoves(c: Config, s: State, input: TransferInput, pot: Pot)
    ensures var fee := if input.fee.Some? && input.fee.value > 0 then input.fee.value else 0;
            CreateTransferStep(c, s, input).Ok? <==>
              && input.amount > 0
              && (c.enforce && input.reserve ==> input.amount + fee <= Spendable(c, s, input.book, input.source))
    ensures CreateTransferStep(c, s, input).Ok? ==>
              var t := CreateTransferStep(c, s, input).value;
              var fee := if input.fee.Some? && input.fee.value > 0 then input.fee.value else 0;
              Gained(s, t, pot) ==
                if !input.reserve then 0
                else Moved(pot, Pot(input.book, input.source), input.amount + fee, Pot(input.book, input.destination),
                           if input.destination == None && !input.toPlatform then 0 else input.amount)
  {
    hide Net;
    var result := CreateTransferStep(c, s, input);
    if result.Ok? && input.reserve {
      var fee := Max0(Default(input.fee, 0));
      var rows := ReserveRows(|s.transfers|, NewTransfer(input), fee, input.toPlatform);
      assert result.value.ledger == s.ledger + rows;
      if |rows| == 2 {
        assert rows == [rows[0], rows[1]];
        TwoRowsGain(s, result.value, rows[0], rows[1], pot);
      } else {
        OneRowGains(s, result.value, rows[0], pot);
      }
    }
  }

  /** The row of a new transfer is what was asked for, nothing of it reversed. */
  lemma TransferRow(c: Config, s: State, input: TransferInput)
    requires CreateTransferStep(c, s, input).Ok?
    ensures var t := CreateTransferStep(c, s, input).value;
            && |t.transfers| == |s.transfers| + 1 && t.transfers[..|s.transfers|] == s.transfers
            && (var row := t.transfers[|s.transfers|];
                && row.book == input.book && row.amount == input.amount && row.status == input.status
                && row.source == input.source && row.destination == input.destination
                && row.sourcePayment == input.sourcePayment && row.amountReversed == 0)
  {
    hide ReserveRows, CreationMeta;
  }

  /** Part of an internal transfer, or what is left of it, goes back from its destination to its source. */
  lemma ReversalMoves(c: Config, s: State, t: nat, amount: Option<int>, pot: Pot)
    requires t < |s.transfers|
    ensures var transfer := s.transfers[t];
            var left := transfer.amount - transfer.amountReversed;
            var back := if amount.Some? then amount.value else left;
            ReverseTransferStep(c, s, t, amount).Ok? <==>
              && transfer.destination.Some? && transfer.destination != transfer.source
              && transfer.status != TransferStatus.Failed && transfer.status != TransferStatus.Cancelled
              && 0 < back <= left
              && (c.enforce ==> back <= Net(s.ledger, Pot(transfer.book, transfer.destination)))
    ensures ReverseTransferStep(c, s, t, amount).Ok? ==>
              var transfer, after := s.transfers[t], ReverseTransferStep(c, s, t, amount).value;
              var back := if amount.Some? then amount.value else transfer.amount - transfer.amountReversed;
              && Gained(s, after, pot) == Moved(pot, Pot(transfer.book, transfer.destination), back,
                                                Pot(transfer.book, transfer.source), back)
              && t < |after.transfers| && after.transfers[t].amountReversed == transfer.amountReversed + back
              && (after.transfers[t].status == Reversed
                  <==> transfer.status == Reversed || transfer.amountReversed + back == transfer.amount)
  {
    hide Net;
    var result, transfer := ReverseTransferStep(c, s, t, amount), s.transfers[t];
    var back := if amount.Some? then amount.value else transfer.amount - transfer.amountReversed;
    if result.Ok? {
      TwoRowsGain(s, result.value,
                  Row(Pot(transfer.book, transfer.destination), false, back, TransferReversal, Some(TransferId(t))),
                  Row(Pot(transfer.book, transfer.source), true, back, TransferReversal, Some(TransferId(t))), pot);
    }
  }

  /** The value of a metadata key after a patch. */
  function Patched<T>(was: Option<T>, patch: Option<T>): Option<T> { if patch == None then was else patch }

  /** A transfer that fails, is cancelled or is marked reversed gives back what still stands of it and the fee its metadata
      then names, unless the metadata says that nothing was reserved or that the fee is kept. */
  lemma ReleaseMoves(s: State, t: nat, to: TransferStatus, patch: TransferMeta, pot: Pot)
    requires TransitionTransferStep(s, t, to, patch).Ok?
    ensures t < |s.transfers|
    ensures var transfer, after := s.transfers[t], TransitionTransferStep(s, t, to, patch).value;
            var standing := if transfer.amountReversed < transfer.amount then transfer.amount - transfer.amountReversed else 0;
            var fee := Patched(transfer.meta.fee, patch.fee);
            var feeBack := if fee == None || Patched(transfer.meta.feeRefundable, patch.feeRefundable) == Some(false) then 0
                           else if fee.value > 0 then fee.value else 0;
            Gained(s, after, pot) ==
              if to !in {TransferStatus.Failed, TransferStatus.Cancelled, Reversed}
                 || Patched(transfer.meta.reserved, patch.reserved) == Some(false) then 0
              else (if pot == Pot(transfer.book, transfer.source) then standing + feeBack else 0)
                   - (if transfer.destination.Some? && pot == Pot(transfer.book, transfer.destination) then standing else 0)
  {
    hide Net;
    var transfer := s.transfers[t];
    var updated := transfer.(status := to, meta := transfer.meta.Merge(patch));
    PostGains(s, ReleaseRows(t, updated, to), pot);
    assert TransitionTransferStep(s, t, to, patch).value.ledger == s.Post(ReleaseRows(t, updated, to)).ledger;
    ReleaseRowsGain(t, updated, to, pot);
    hide Gained, Sum;
  }

  /* ---------------------------- refunds ---------------------------- */

  /** A refund that settles leaves the account of a direct charge, and the platform's balance for any other. */
  lemma RefundMoves(s: State, r: nat, to: RefundStatus, pot: Pot)
    requires TransitionRefundStep(s, r, to).Ok?
    ensures r < |s.refunds|
    ensures var refund, t := s.refunds[r], TransitionRefundStep(s, r, to).value;
            if to != RefundStatus.Successful then t.ledger == s.ledger
            else && refund.payment < |s.payments|
                 && (var p := s.payments[refund.payment];
                     Gained(s, t, pot) == if pot == Pot(refund.book, if p.mode == Direct then p.subaccount else None)
                                          then -refund.amount else 0)
  {
    hide Net, TotalRefunded;
    if to == RefundStatus.Successful {
      var refund := s.refunds[r];
      OneRowGains(s, TransitionRefundStep(s, r, to).value, RefundRow(r, refund, s.payments[refund.payment]), pot);
    }
  }

  /* ---------------------------- fee refunds ---------------------------- */

  /** Among the 500 latest transfers. */
  predicate InView(transfers: seq<Transfer>, t: int) { 0 <= t < |transfers| && |transfers| - t <= 500 }

  /** Transfer `t` is the newest in view that was made for payment `i`. */
  predicate Forwards(transfers: seq<Transfer>, i: nat, t: int) {
    && InView(transfers, t) && transfers[t].sourcePayment == Some(i)
    && forall later :: t < later < |transfers| ==> transfers[later].sourcePayment != Some(i)
  }

  ghost predicate NoneForwards(transfers: seq<Transfer>, i: nat) {
    forall t :: InView(transfers, t) ==> transfers[t].sourcePayment != Some(i)
  }

  lemma {:induction false} NewestIs(transfers: seq<Transfer>, i: nat, window: nat)
    ensures var found := NewestFor(transfers, i, window);
            if found.Some? then
              && found.value < |transfers| <= found.value + window && transfers[found.value].sourcePayment == Some(i)
              && forall later :: found.value < later < |transfers| ==> transfers[later].sourcePayment != Some(i)
            else forall t :: 0 <= t < |transfers| <= t + window ==> transfers[t].sourcePayment != Some(i)
    decreases |transfers|
  {
    if window > 0 && transfers != [] && transfers[|transfers| - 1].sourcePayment != Some(i) {
      NewestIs(transfers[..|transfers| - 1], i, window - 1);
    }
  }

  /** `x` of a request, by what stands of a transfer: all of it while nothing has been reversed, nothing once everything
      has, and between them the floor of the share. */
  predicate Stands(x: int, requested: int, transfer: Transfer) {
    && 0 <= x <= requested
    && (transfer.amountReversed == 0 ==> x == requested)
    && (transfer.amountReversed >= transfer.amount ==> x == 0)
    && (transfer.amountReversed < transfer.amount ==>
          x * transfer.amount <= requested * (transfer.amount - transfer.amountReversed) < (x + 1) * transfer.amount)
  }

  lemma FloorBounds(n: int, d: int)
    requires d > 0
    ensures n / d * d <= n < (n / d + 1) * d
  {
    assert n == n / d * d + n % d;
    assert (n / d + 1) * d == n / d * d + d;
  }

  lemma OneMoreTimes(x: int, y: int, d: int)
    requires x > y && d > 0
    ensures x * d >= (y + 1) * d
  {
    assert x * d - (y + 1) * d == (x - y - 1) * d;
  }

  lemma FloorOfShare(requested: int, standing: int, amount: int)
    requires requested > 0 && 0 <= standing <= amount && amount > 0
    ensures var x := requested * standing / amount;
            && 0 <= x <= requested && (standing == amount ==> x == requested) && (standing == 0 ==> x == 0)
            && x * amount <= requested * standing < (x + 1) * amount
  {
    var x := requested * standing / amount;
    FloorBounds(requested * standing, amount);
    OrderedTimes(requested, standing, amount);
    QuotientWithin(x, requested, standing, amount);
  }

  lemma OrderedTimes(requested: int, standing: int, amount: int)
    requires requested > 0 && 0 <= standing <= amount
    ensures 0 <= requested * standing <= requested * amount
  {
    assert requested * amount - requested * standing == requested * (amount - standing);
  }

  lemma QuotientWithin(x: int, requested: int, standing: int, amount: int)
    requires amount > 0 && 0 <= requested * standing <= requested * amount
    requires x * amount <= requested * standing < (x + 1) * amount
    ensures 0 <= x <= requested && (standing == amount ==> x == requested) && (standing == 0 ==> x == 0)
  {
    if x < 0 { OneMoreTimes(0, x, amount); }
    if x > requested { OneMoreTimes(x, requested, amount); }
    if x < requested { OneMoreTimes(requested, x, amount); }
    if x > 0 { OneMoreTimes(x, 0, amount); }
  }

  lemma ShareStands(s: State, i: nat, p: Payment, requested: int)
    requires requested > 0 && forall transfer <- s.transfers :: transfer.amount > 0 && transfer.amountReversed >= 0
    ensures var x := FeeRefundShare(s, i, p, requested);
            && 0 <= x <= requested
            && (p.mode != Forwarded || NoneForwards(s.transfers, i) ==> x == requested)
            && (forall t :: p.mode == Forwarded && Forwards(s.transfers, i, t) ==> Stands(x, requested, s.transfers[t]))
  {
    NewestIs(s.transfers, i, 500);
    var found := NewestFor(s.transfers, i, 500);
    if p.mode == Forwarded && found.Some? {
      var transfer := s.transfers[found.value];
      FloorOfShare(requested, Outstanding(transfer), transfer.amount);
      assert Forwards(s.transfers, i, found.value);
      assert forall t :: Forwards(s.transfers, i, t) ==> t == found.value;
    }
  }

  lemma ReturnFeeGains(s: State, i: nat, p: Payment, movable: int, pot: Pot)
    requires ReturnFee(s, i, p, movable).Ok?
    ensures Gained(s, ReturnFee(s, i, p, movable).value, pot)
            == if movable > 0 then Moved(pot, Pot(p.book, None), movable, Pot(p.book, p.subaccount), movable) else 0
  {
    hide Net;
    if movable > 0 { MoveGains(s, p.book, movable, None, p.subaccount, FeeRefund, PaymentId(i), pot); }
  }

  /** When a fee refund is accepted, and what it does to the payment. */
  lemma FeeRefundedExactlyWhen(s: State, i: nat, amount: Option<int>)
    ensures RefundPlatformFeeStep(s, i, amount).Ok? <==>
            && i < |s.payments|
            && (var p := s.payments[i];
                var asked := if amount.Some? then amount.value else p.platformFee - p.feeRefunded;
                p.platformFee > 0 && p.subaccount.Some? && 0 < asked <= p.platformFee - p.feeRefunded)
    ensures RefundPlatformFeeStep(s, i, amount).Ok? ==>
            var p := s.payments[i];
            var asked := if amount.Some? then amount.value else p.platformFee - p.feeRefunded;
            RefundPlatformFeeStep(s, i, amount).value.payments == s.payments[i := p.(feeRefunded := p.feeRefunded + asked)]
  {
    hide FeeRefundShare;
  }

  /**
   * A fee refund is worth the same to the account as it costs the platform: the whole request for a direct charge, or
   * while nothing of the transfer that forwarded the charge has been reversed; nothing once all of it has.
   */
  lemma FeeRefundMoves(s: State, i: nat, amount: Option<int>, pot: Pot)
    requires RefundPlatformFeeStep(s, i, amount).Ok?
    requires forall transfer <- s.transfers :: transfer.amount > 0 && transfer.amountReversed >= 0
    ensures i < |s.payments| && s.payments[i].subaccount.Some?
    ensures var p, t := s.payments[i], RefundPlatformFeeStep(s, i, amount).value;
            var asked := if amount.Some? then amount.value else p.platformFee - p.feeRefunded;
            var account := Pot(p.book, p.subaccount);
            var x := Gained(s, t, account);
            && 0 <= x <= asked
            && Gained(s, t, pot) == Moved(pot, Pot(p.book, None), x, account, x)
            && (p.mode != Forwarded || NoneForwards(s.transfers, i) ==> x == asked)
            && (forall f :: p.mode == Forwarded && Forwards(s.transfers, i, f) ==> Stands(x, asked, s.transfers[f]))
  {
    hide FeeRefundShare, Net, Forwards, NoneForwards, Stands, ReturnFee;
    var p := s.payments[i];
    var asked := if amount.Some? then amount.value else p.platformFee - p.feeRefunded;
    var updated := p.(feeRefunded := p.feeRefunded + asked);
    var moved, share := s.UpdatePayment(i, updated), FeeRefundShare(s, i, updated, asked);
    assert RefundPlatformFeeStep(s, i, amount) == ReturnFee(moved, i, updated, share);
    ShareStands(s, i, updated, asked);
    ReturnFeeGains(moved, i, updated, share, pot);
    ReturnFeeGains(moved, i, updated, share, Pot(p.book, p.subaccount));
  }

  /** So in every reachable state. */
  lemma FeeRefundMovesInEveryRun(c: Config, ops: seq<Op>, i: nat, amount: Option<int>, pot: Pot)
    requires RefundPlatformFeeStep(Run(c, EMPTY, ops), i, amount).Ok?
    ensures var s := Run(c, EMPTY, ops);
            && i < |s.payments|
            && (var p, t := s.payments[i], RefundPlatformFeeStep(s, i, amount).value;
                var asked := if amount.Some? then amount.value else p.platformFee - p.feeRefunded;
                var account := Pot(p.book, p.subaccount);
                var x := Gained(s, t, account);
                && 0 <= x <= asked
                && Gained(s, t, pot) == Moved(pot, Pot(p.book, None), x, account, x)
                && (p.mode != Forwarded || NoneForwards(s.transfers, i) ==> x == asked)
                && (forall f :: p.mode == Forwarded && Forwards(s.transfers, i, f) ==> Stands(x, asked, s.transfers[f])))
  {
    ReachableTransfers(c, ops);
    hide RefundPlatformFeeStep, Run, Forwards, NoneForwards, Stands, Gained, Moved;
    FeeRefundMoves(Run(c, EMPTY, ops), i, amount, pot);
  }

  lemma ReachableTransfers(c: Config, ops: seq<Op>)
    ensures forall transfer <- Run(c, EMPTY, ops).transfers :: transfer.amount > 0 && transfer.amountReversed >= 0
  {
    Transfers.EmptyIsBooked();
    Transfers.RunKeepsBooked(c, EMPTY, [], ops);
    hide Run, Transfers.Notes, Transfers.TallyOf;
  }

  /* ---------------------------- fee refunds over a run ---------------------------- */

  /** What fee refunds of payment `i` have put into a pot. */
  function FeeInto(i: nat, pot: Pot): Row -> int {
    (r: Row) => if r.reason == FeeRefund && r.resource == Some(PaymentId(i)) && r.pot == pot then r.Signed() else 0
  }

  /** No transfer made for the payment has had any of it reversed. */
  predicate TransfersStand(s: State, i: nat) {
    forall transfer <- s.transfers :: transfer.sourcePayment == Some(i) ==> transfer.amountReversed == 0
  }

  /** What fee refunds have moved for a payment, from the platform to its account: never more than is recorded as refunded,
      and all of it unless a charge was forwarded and the transfer has been reversed in part. */
  ghost predicate FeesBooked(s: State, i: nat)
    requires i < |s.payments|
  {
    var p := s.payments[i];
    var moved := Sum(s.ledger, FeeInto(i, Pot(p.book, p.subaccount)));
    && Sum(s.ledger, FeeInto(i, Pot(p.book, None))) == -moved
    && 0 <= moved <= p.feeRefunded && (p.feeRefunded > 0 ==> p.feeRefunded <= p.platformFee)
    && (p.subaccount == None ==> p.feeRefunded == 0)
    && (p.mode != Forwarded || TransfersStand(s, i) ==> moved == p.feeRefunded)
  }

  /** Fee rows name payments there are. */
  predicate FeeRowKnown(s: State, r: Row) {
    r.reason == FeeRefund ==> r.resource.Some? && r.resource.value.PaymentId? && r.resource.value.n < |s.payments|
  }

  ghost predicate AllFeesBooked(s: State) {
    && (forall r <- s.ledger :: FeeRowKnown(s, r))
    && (forall i: nat :: i < |s.payments| ==> FeesBooked(s, i))
    && (forall transfer <- s.transfers :: transfer.amount > 0 && transfer.amountReversed >= 0)
  }

  /** A step that refunds no fee: the payment's fee fields stay, no fee row is written, and what has been reversed stays so. */
  ghost predicate FeesUntouched(s: State, t: State) {
    && |s.payments| <= |t.payments| && |s.transfers| <= |t.transfers|
    && (forall i :: 0 <= i < |s.payments| ==>
          SameCharge(s.payments[i], t.payments[i]) && t.payments[i].feeRefunded == s.payments[i].feeRefunded)
    && (forall k :: 0 <= k < |s.transfers| ==>
          && t.transfers[k].sourcePayment == s.transfers[k].sourcePayment
          && t.transfers[k].amountReversed >= s.transfers[k].amountReversed)
  }

  lemma StandingBefore(s: State, t: State, i: nat)
    requires FeesUntouched(s, t) && TransfersStand(t, i)
    requires forall transfer <- s.transfers :: transfer.amountReversed >= 0
    ensures TransfersStand(s, i)
  {
    forall transfer | transfer in s.transfers && transfer.sourcePayment == Some(i) ensures transfer.amountReversed == 0 {
      var k :| 0 <= k < |s.transfers| && s.transfers[k] == transfer;
      assert t.transfers[k] in t.transfers;
    }
  }

  lemma UntouchedTwice(s: State, t: State, u: State)
    requires FeesUntouched(s, t) && FeesUntouched(t, u)
    ensures FeesUntouched(s, u)
  {
  }

  lemma TransitionPaymentLeavesFees(s: State, i: nat, to: PaymentStatus, reversal: bool, retry: bool)
    requires TransitionPaymentStep(s, i, to, reversal, retry).Ok?
    ensures FeesUntouched(s, TransitionPaymentStep(s, i, to, reversal, retry).value)
  {
    hide ChargeRows, ReserveRows, ForwardedShare;
  }

  lemma RefundStepLeavesFees(s: State, op: Op)
    requires op.CreateRefund? || op.TransitionRefund?
    requires Try(Config(false, 0), s, op).Ok?
    ensures FeesUntouched(s, Try(Config(false, 0), s, op).value)
  {
    hide TotalRefunded, RefundRow;
  }

  lemma ResolveDisputeLeavesFees(s: State, d: nat, accepted: bool, requested: Option<int>)
    requires ResolveDisputeStep(s, d, accepted, requested).Ok?
    ensures FeesUntouched(s, ResolveDisputeStep(s, d, accepted, requested).value)
  {
    hide CreateRefundStep, TransitionRefundStep;
    var i, amount := s.disputes[d].payment, Default(requested, s.disputes[d].refundAmount);
    if accepted && amount > 0 {
      var created := CreateRefundStep(s, i, Some(amount), RefundStatus.Pending).value;
      var settled := TransitionRefundStep(created, |s.refunds|, RefundStatus.Successful).value;
      RefundStepLeavesFees(s, CreateRefund(i, Some(amount), RefundStatus.Pending));
      RefundStepLeavesFees(created, TransitionRefund(|s.refunds|, RefundStatus.Successful));
      UntouchedTwice(s, created, settled);
    }
  }

  lemma TransferStepLeavesFees(c: Config, s: State, op: Op)
    requires op.CreateTransfer? || op.TransitionTransfer? || op.UpdateTransferMetadata? || op.ReverseTransfer?
    ensures FeesUntouched(s, Step(c, s, op))
  {
    hide ReserveRows, ReleaseRows, MoveRows, Net;
  }

  lemma OtherStepLeavesFees(c: Config, s: State, op: Op)
    requires op.CreatePayment? || op.CreateDispute? || op.TransitionDispute?
             || op.CreditBalance? || op.DebitBalance? || op.ExchangeBalance?
    ensures FeesUntouched(s, Step(c, s, op))
  {
    hide TransitionPaymentStep, CreateRefundStep, TransitionRefundStep, ResolveDisputeStep, CreateTransferStep;
    hide TransitionTransferStep, ReverseTransferStep, RefundPlatformFeeStep;
  }

  lemma LeavesFees(c: Config, s: State, op: Op)
    requires !op.RefundPlatformFee?
    ensures FeesUntouched(s, Step(c, s, op))
  {
    if Try(c, s, op).Err? { return; }
    hide FeesUntouched;
    match op
    case TransitionPayment(i, to, reversal, retry) => TransitionPaymentLeavesFees(s, i, to, reversal, retry);
    case CreateRefund(_, _, _) => RefundStepLeavesFees(s, op);
    case TransitionRefund(_, _) => RefundStepLeavesFees(s, op);
    case ResolveDispute(d, accepted, requested) => ResolveDisputeLeavesFees(s, d, accepted, requested);
    case CreateTransfer(_) => TransferStepLeavesFees(c, s, op);
    case TransitionTransfer(_, _, _) => TransferStepLeavesFees(c, s, op);
    case UpdateTransferMetadata(_, _) => TransferStepLeavesFees(c, s, op);
    case ReverseTransfer(_, _) => TransferStepLeavesFees(c, s, op);
    case _ => OtherStepLeavesFees(c, s, op);
  }

  lemma {:induction false} NoFeeYet(rows: seq<Row>, i: nat, pot: Pot)
    requires forall r <- rows :: r.reason == FeeRefund ==> r.resource != Some(PaymentId(i))
    ensures Sum(rows, FeeInto(i, pot)) == 0
  {
    if rows != [] { NoFeeYet(rows[..|rows| - 1], i, pot); }
  }

  lemma SameFeeRows(c: Config, s: State, op: Op, i: nat, pot: Pot)
    requires !op.RefundPlatformFee?
    ensures Sum(Step(c, s, op).ledger, FeeInto(i, pot)) == Sum(s.ledger, FeeInto(i, pot))
    ensures (forall r <- s.ledger :: FeeRowKnown(s, r)) ==> forall r <- Step(c, s, op).ledger :: FeeRowKnown(Step(c, s, op), r)
  {
    hide Step, Try, Sum, RowValid;
    var t := Step(c, s, op);
    StepGrows(c, s, op);
    Conservation.OtherClassesGrow(s, t, ClassesOf(op), FeeClass, FeeInto(i, pot));
    if forall r <- s.ledger :: FeeRowKnown(s, r) {
      forall r | r in t.ledger ensures FeeRowKnown(t, r) {
        var k :| 0 <= k < |t.ledger| && t.ledger[k] == r;
        if k < |s.ledger| { assert t.ledger[..|s.ledger|][k] == s.ledger[k] && s.ledger[k] in s.ledger; }
      }
    }
  }

  lemma OldFeesStayBooked(c: Config, s: State, op: Op, i: nat)
    requires AllFeesBooked(s) && !op.RefundPlatformFee? && i < |s.payments|
    ensures i < |Step(c, s, op).payments| && FeesBooked(Step(c, s, op), i)
  {
    hide Step, Sum, TransfersStand, FeeRowKnown;
    var t, p := Step(c, s, op), s.payments[i];
    LeavesFees(c, s, op);
    SameFeeRows(c, s, op, i, Pot(p.book, p.subaccount));
    SameFeeRows(c, s, op, i, Pot(p.book, None));
    if TransfersStand(t, i) { StandingBefore(s, t, i); }
    assert FeesBooked(s, i);
  }

  lemma NewFeesAreBooked(c: Config, s: State, op: Op, i: nat)
    requires AllFeesBooked(s) && !op.RefundPlatformFee? && |s.payments| <= i < |Step(c, s, op).payments|
    ensures FeesBooked(Step(c, s, op), i)
  {
    hide Step, Sum, TransfersStand;
    var p := Step(c, s, op).payments[i];
    NewPayment(c, s, op, i);
    SameFeeRows(c, s, op, i, Pot(p.book, p.subaccount));
    SameFeeRows(c, s, op, i, Pot(p.book, None));
    NoFeeYet(s.ledger, i, Pot(p.book, p.subaccount));
    NoFeeYet(s.ledger, i, Pot(p.book, None));
  }

  /** The rows of one fee refund. */
  function FeeRows(p: Payment, i: nat, x: int): seq<Row> {
    if x > 0 then MoveRows(p.book, x, None, p.subaccount, FeeRefund, PaymentId(i)) else []
  }

  lemma FeeStepRows(s: State, i: nat, amount: Option<int>)
    requires RefundPlatformFeeStep(s, i, amount).Ok?
    ensures i < |s.payments|
    ensures var p, t := s.payments[i], RefundPlatformFeeStep(s, i, amount).value;
            var asked := if amount.Some? then amount.value else p.platformFee - p.feeRefunded;
            && t.ledger == s.ledger + FeeRows(p, i, FeeRefundShare(s, i, p, asked)) && t.transfers == s.transfers
  {
    hide FeeRefundShare;
    var p := s.payments[i];
    var asked := if amount.Some? then amount.value else p.platformFee - p.feeRefunded;
    SameShare(s, i, p, p.(feeRefunded := p.feeRefunded + asked), asked);
  }

  lemma FeeRowsInto(p: Payment, i: nat, x: int, k: nat, pot: Pot)
    ensures Sum(FeeRows(p, i, x), FeeInto(k, pot))
            == if k == i && x > 0 then Moved(pot, Pot(p.book, None), x, Pot(p.book, p.subaccount), x) else 0
  {
    var rows := FeeRows(p, i, x);
    if rows != [] { SumPair(rows[0], rows[1], FeeInto(k, pot)); }
  }

  lemma StandingShare(s: State, i: nat, p: Payment, requested: int)
    requires requested > 0 && forall transfer <- s.transfers :: transfer.amount > 0 && transfer.amountReversed >= 0
    requires p.mode != Forwarded || TransfersStand(s, i)
    ensures FeeRefundShare(s, i, p, requested) == requested
  {
    ShareStands(s, i, p, requested);
    NewestIs(s.transfers, i, 500);
    hide FeeRefundShare;
    var found := NewestFor(s.transfers, i, 500);
    if p.mode == Forwarded && found.Some? {
      assert Forwards(s.transfers, i, found.value) && s.transfers[found.value] in s.transfers;
    } else if p.mode == Forwarded {
      assert NoneForwards(s.transfers, i);
    }
  }

  lemma FeeStepKeepsBooked(s: State, j: nat, amount: Option<int>, i: nat)
    requires AllFeesBooked(s) && RefundPlatformFeeStep(s, j, amount).Ok? && i < |s.payments|
    ensures var t := RefundPlatformFeeStep(s, j, amount).value; i < |t.payments| && FeesBooked(t, i)
  {
    hide FeeRefundShare, Sum, TransfersStand, RefundPlatformFeeStep, FeeRows, FeeRowKnown;
    FeeRefundedExactlyWhen(s, j, amount);
    FeeStepRows(s, j, amount);
    var p, t := s.payments[j], RefundPlatformFeeStep(s, j, amount).value;
    var asked := if amount.Some? then amount.value else p.platformFee - p.feeRefunded;
    var x, q := FeeRefundShare(s, j, p, asked), s.payments[i];
    ShareStands(s, j, p, asked);
    SumPost(s.ledger, FeeRows(p, j, x), FeeInto(i, Pot(q.book, q.subaccount)));
    SumPost(s.ledger, FeeRows(p, j, x), FeeInto(i, Pot(q.book, None)));
    FeeRowsInto(p, j, x, i, Pot(q.book, q.subaccount));
    FeeRowsInto(p, j, x, i, Pot(q.book, None));
    assert FeesBooked(s, i);
    if TransfersStand(t, i) { SameTransfersStand(s, t, i); }
    if p.mode != Forwarded || TransfersStand(s, j) { StandingShare(s, j, p, asked); }
  }

  lemma SameTransfersStand(s: State, t: State, i: nat)
    requires t.transfers == s.transfers && TransfersStand(t, i)
    ensures TransfersStand(s, i)
  {
  }

  lemma FeeStepKeepsKnown(s: State, j: nat, amount: Option<int>)
    requires AllFeesBooked(s) && RefundPlatformFeeStep(s, j, amount).Ok?
    ensures var t := RefundPlatformFeeStep(s, j, amount).value; forall r <- t.ledger :: FeeRowKnown(t, r)
  {
    hide FeeRefundShare, RefundPlatformFeeStep, FeesBooked;
    FeeRefundedExactlyWhen(s, j, amount);
    FeeStepRows(s, j, amount);
  }

  lemma StepKeepsFeesBooked(c: Config, s: State, op: Op)
    requires AllFeesBooked(s)
    requires forall transfer <- Step(c, s, op).transfers :: transfer.amount > 0 && transfer.amountReversed >= 0
    ensures AllFeesBooked(Step(c, s, op))
  {
    var t := Step(c, s, op);
    hide FeesBooked, FeeRowKnown;
    if op.RefundPlatformFee? && Try(c, s, op).Ok? {
      hide RefundPlatformFeeStep;
      FeeRefundedExactlyWhen(s, op.payment, op.requested);
      FeeStepKeepsKnown(s, op.payment, op.requested);
      forall i: nat | i < |t.payments| ensures FeesBooked(t, i) { FeeStepKeepsBooked(s, op.payment, op.requested, i); }
    } else if !op.RefundPlatformFee? {
      hide Step;
      SameFeeRows(c, s, op, 0, Pot(Book("", ""), None));
      forall i: nat | i < |t.payments| ensures FeesBooked(t, i) {
        if i < |s.payments| { OldFeesStayBooked(c, s, op, i); } else { NewFeesAreBooked(c, s, op, i); }
      }
    }
  }

  /** Over every run: fee refunds move what they record, but for what a reversed transfer has taken back already. */
  lemma {:induction false} FeeRefundsAddUp(c: Config, ops: seq<Op>)
    ensures AllFeesBooked(Run(c, EMPTY, ops))
    decreases |ops|
  {
    if ops != [] {
      var n := |ops| - 1;
      FeeRefundsAddUp(c, ops[..n]);
      ReachableTransfers(c, ops);
      LastStep(c, EMPTY, ops);
      hide AllFeesBooked, Run, Step;
      StepKeepsFeesBooked(c, Run(c, EMPTY, ops[..n]), ops[n]);
    }
  }

  lemma {:induction false} LastStep(c: Config, s: State, ops: seq<Op>)
    requires ops != []
    ensures Run(c, s, ops) == Step(c, Run(c, s, ops[..|ops| - 1]), ops[|ops| - 1])
    decreases |ops|
  {
    hide Step;
    if |ops| == 1 {
      assert ops[1..] == [] && ops[..0] == [];
    } else {
      LastStep(c, Step(c, s, ops[0]), ops[1..]);
      assert ops[1..][..|ops| - 2] == ops[..|ops| - 1][1..];
    }
  }
}
