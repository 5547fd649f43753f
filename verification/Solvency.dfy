/** With balances enforced, the operations that check before they spend never overdraw a pot. */
module Solvency {
  import opened Options
  import opened StateMachine
  import opened Storage
  import opened EngineSpec
  import opened Settlement

  ghost predicate Solvent(c: Config, s: State) { forall pot :: Available(c, s, pot) >= 0 }

  /** Money an operation takes out of one pot without looking at what the pot holds. */
  datatype Draw = Draw(pot: Pot, amount: int)

  /** What an operation draws unchecked, with balances enforced: nothing, for every operation that is not named. */
  function Unchecked(s: State, op: Op): Option<Draw> {
    match op
    case TransitionRefund(r, to) =>
      if to == RefundStatus.Successful && r < |s.refunds| && s.refunds[r].payment < |s.payments|
      then Some(Draw(RefundRow(r, s.refunds[r], s.payments[s.refunds[r].payment]).pot, s.refunds[r].amount))
      else None
    case ResolveDispute(d, accepted, requested) =>
      if accepted && d < |s.disputes| && s.disputes[d].payment < |s.payments| then
        var p, amount := s.payments[s.disputes[d].payment], Default(requested, s.disputes[d].refundAmount);
        if amount > 0 then Some(Draw(Pot(p.book, if p.mode == Direct then p.subaccount else None), amount)) else None
      else None
    case RefundPlatformFee(i, requested) =>
      if i < |s.payments| then
        var p := s.payments[i];
        var share := FeeRefundShare(s, i, p, Default(requested, p.platformFee - p.feeRefunded));
        if share > 0 then Some(Draw(Pot(p.book, None), share)) else None
      else None
    case TransitionTransfer(t, to, patch) =>
      if t < |s.transfers| && Releases(to) && s.transfers[t].meta.Merge(patch).IsReserved() then
        var transfer := s.transfers[t];
        if transfer.destination.Some? && transfer.source != transfer.destination && Outstanding(transfer) > 0
           && Outstanding(transfer) + transfer.meta.Merge(patch).RefundableFee() > 0
        then Some(Draw(Pot(transfer.book, transfer.destination), Outstanding(transfer)))
        else None
      else None
    case DebitBalance(pot, amount, _, _) => Some(Draw(pot, amount))
    case ExchangeBalance(provider, from, fromAmount, _, _, owner, checkFunds, _, _) =>
      if checkFunds then None else Some(Draw(Pot(Book(provider, from), owner), fromAmount))
    case _ => None
  }

  /** What the operation would draw unchecked is there. */
  predicate DrawFits(c: Config, s: State, op: Op) {
    var draw := Unchecked(s, op);
    draw.Some? ==> draw.value.amount <= Available(c, s, draw.value.pot)
  }

  /** What a step added to one pot. */
  function Gained(s: State, t: State, pot: Pot): int { Net(t.ledger, pot) - Net(s.ledger, pot) }

  lemma PostGains(s: State, rows: seq<Row>, pot: Pot)
    ensures Gained(s, s.Post(rows), pot) == Sum(rows, InPot(pot))
  {
    SumPost(s.ledger, rows, InPot(pot));
  }

  lemma SettlementGains(s: State, i: nat, to: PaymentStatus, reversal: bool, retry: bool, pot: Pot)
    requires ChargesValid(s) && TransitionPaymentStep(s, i, to, reversal, retry).Ok?
    ensures Gained(s, TransitionPaymentStep(s, i, to, reversal, retry).value, pot) >= 0
  {
    if to == PaymentStatus.Successful {
      SettlementDivides(s, i, reversal, retry, pot);
      hide TransitionPaymentStep;
      SharesNonNegative(s.payments[i], pot);
    }
  }

  lemma SharesNonNegative(p: Payment, pot: Pot)
    requires p.amount > 0 && p.platformFee >= 0
    ensures ShareOf(p, pot) >= 0
  {
  }

  lemma ReserveGains(s: State, transfer: Transfer, fee: int, toPlatform: bool, pot: Pot)
    requires InsertReserved(s, transfer, fee, toPlatform).Ok?
    ensures Gained(s, InsertReserved(s, transfer, fee, toPlatform).value, pot) >=
            if pot == Pot(transfer.book, transfer.source) then -(transfer.amount + fee) else 0
  {
    var rows := ReserveRows(|s.transfers|, transfer, fee, toPlatform);
    PostGains(s, rows, pot);
    SumPair(rows[0], if |rows| == 2 then rows[1] else rows[0], InPot(pot));
  }

  lemma CreateTransferStaysSolvent(c: Config, s: State, input: TransferInput)
    requires c.enforce && Solvent(c, s) && CreateTransferStep(c, s, input).Ok?
    ensures Solvent(c, CreateTransferStep(c, s, input).value)
  {
    var t := CreateTransferStep(c, s, input).value;
    forall pot ensures Available(c, t, pot) >= 0 {
      assert Available(c, s, pot) >= 0;
      if input.reserve {
        ReserveGains(s, NewTransfer(input), Max0(Default(input.fee, 0)), input.toPlatform, pot);
      }
    }
  }

  lemma MoveGains(s: State, book: Book, amount: int, from: Owner, to: Owner, reason: Reason, about: Id, pot: Pot)
    requires MoveBetween(s, book, amount, from, to, reason, about).Ok?
    ensures Gained(s, MoveBetween(s, book, amount, from, to, reason, about).value, pot) ==
            (if pot == Pot(book, from) then -amount else 0) + (if pot == Pot(book, to) then amount else 0)
    ensures amount > 0
  {
    var rows := MoveRows(book, amount, from, to, reason, about);
    PostGains(s, rows, pot);
    SumPair(rows[0], rows[1], InPot(pot));
    assert rows[0].amount > 0;
  }

  lemma ReverseTransferStaysSolvent(c: Config, s: State, i: nat, amount: Option<int>)
    requires c.enforce && Solvent(c, s) && ReverseTransferStep(c, s, i, amount).Ok?
    ensures Solvent(c, ReverseTransferStep(c, s, i, amount).value)
  {
    var t := ReverseTransferStep(c, s, i, amount).value;
    var transfer := s.transfers[i];
    var requested := Default(amount, transfer.amount - transfer.amountReversed);
    forall pot ensures Available(c, t, pot) >= 0 {
      assert Available(c, s, pot) >= 0;
      MoveGains(s.UpdateTransfer(i, AfterReversal(transfer, requested)), transfer.book, requested,
                transfer.destination, transfer.source, TransferReversal, TransferId(i), pot);
    }
  }

  lemma ExchangeStaysSolvent(c: Config, s: State, op: Op)
    requires c.enforce && Solvent(c, s) && op.ExchangeBalance? && op.checkFunds && Try(c, s, op).Ok?
    ensures Solvent(c, Try(c, s, op).value)
  {
    hide TransitionPaymentStep, CreateRefundStep, TransitionRefundStep, ResolveDisputeStep, CreateTransferStep;
    hide TransitionTransferStep, ReverseTransferStep, RefundPlatformFeeStep;
    var t := Try(c, s, op).value;
    var rows := t.ledger[|s.ledger|..];
    forall pot ensures Available(c, t, pot) >= 0 {
      assert Available(c, s, pot) >= 0;
      assert rows == [rows[0], rows[1]];
      PostGains(s, rows, pot);
      SumPair(rows[0], rows[1], InPot(pot));
    }
  }

  /** One unchecked debit, among credits: the books stay solvent exactly when it fits its pot. */
  lemma SolventExactlyWhenItFits(c: Config, s: State, t: State, draw: Draw)
    requires Solvent(c, s)
    requires forall pot :: pot != draw.pot ==> Gained(s, t, pot) >= 0
    requires Gained(s, t, draw.pot) == -draw.amount
    ensures Solvent(c, t) <==> draw.amount <= Available(c, s, draw.pot)
  {
    hide Net;
    assert Available(c, t, draw.pot) == Available(c, s, draw.pot) - draw.amount;
    if draw.amount <= Available(c, s, draw.pot) {
      forall pot ensures Available(c, t, pot) >= 0 {
        assert Available(c, s, pot) >= 0;
        assert pot != draw.pot ==> Gained(s, t, pot) >= 0;
      }
    }
  }

  lemma CreditsStaySolvent(c: Config, s: State, t: State)
    requires Solvent(c, s) && forall pot :: Gained(s, t, pot) >= 0
    ensures Solvent(c, t)
  {
    hide Net;
    forall pot ensures Available(c, t, pot) >= 0 {
      assert Available(c, s, pot) >= 0;
      assert Gained(s, t, pot) >= 0;
    }
  }

  lemma OneRowGains(s: State, t: State, row: Row, pot: Pot)
    requires t.ledger == s.ledger + [row]
    ensures Gained(s, t, pot) == if pot == row.pot then row.Signed() else 0
  {
    SumOne(s.ledger, row, InPot(pot));
  }

  lemma RefundDraws(c: Config, s: State, r: nat)
    requires Solvent(c, s) && TransitionRefundStep(s, r, RefundStatus.Successful).Ok?
    ensures Solvent(c, TransitionRefundStep(s, r, RefundStatus.Successful).value)
            <==> DrawFits(c, s, TransitionRefund(r, RefundStatus.Successful))
  {
    hide Net;
    var row := RefundRow(r, s.refunds[r], s.payments[s.refunds[r].payment]);
    var t := TransitionRefundStep(s, r, RefundStatus.Successful).value;
    assert t.ledger == s.ledger + [row];
    forall pot ensures Gained(s, t, pot) == if pot == row.pot then -row.amount else 0 { OneRowGains(s, t, row, pot); }
    SolventExactlyWhenItFits(c, s, t, Draw(row.pot, row.amount));
  }

  lemma ConcededRow(s: State, i: nat, amount: int)
    requires ConcedeRefund(s, i, amount).Ok?
    ensures i < |s.payments|
    ensures var p := s.payments[i];
            ConcedeRefund(s, i, amount).value.ledger == s.ledger +
            [Row(Pot(p.book, if p.mode == Direct then p.subaccount else None), false, amount, RefundPaid,
                 Some(RefundId(|s.refunds|)))]
  {
    hide TotalRefunded;
  }

  lemma DisputeDraws(c: Config, s: State, d: nat, accepted: bool, requested: Option<int>)
    requires Solvent(c, s) && ResolveDisputeStep(s, d, accepted, requested).Ok?
    ensures Solvent(c, ResolveDisputeStep(s, d, accepted, requested).value)
            <==> DrawFits(c, s, ResolveDispute(d, accepted, requested))
  {
    hide Net, ConcedeRefund;
    var t := ResolveDisputeStep(s, d, accepted, requested).value;
    var i, amount := s.disputes[d].payment, Default(requested, s.disputes[d].refundAmount);
    if accepted && amount > 0 {
      ConcededRow(s, i, amount);
      var row := t.ledger[|s.ledger|];
      forall pot ensures Gained(s, t, pot) == if pot == row.pot then -row.amount else 0 { OneRowGains(s, t, row, pot); }
      SolventExactlyWhenItFits(c, s, t, Draw(row.pot, row.amount));
    } else {
      CreditsStaySolvent(c, s, t);
    }
  }

  lemma FeeRefundDraws(c: Config, s: State, i: nat, requested: Option<int>)
    requires Solvent(c, s) && RefundPlatformFeeStep(s, i, requested).Ok?
    ensures Solvent(c, RefundPlatformFeeStep(s, i, requested).value)
            <==> DrawFits(c, s, RefundPlatformFee(i, requested))
  {
    hide Net, FeeRefundShare;
    var p := s.payments[i];
    var amount := Default(requested, p.platformFee - p.feeRefunded);
    var updated := p.(feeRefunded := p.feeRefunded + amount);
    var moved := s.UpdatePayment(i, updated);
    var share := FeeRefundShare(s, i, p, amount);
    SameShare(s, i, p, updated, amount);
    assert RefundPlatformFeeStep(s, i, requested) == ReturnFee(moved, i, updated, FeeRefundShare(s, i, updated, amount));
    hide ReturnFee;
    ReturnFeeDraws(c, moved, i, updated, share);
    hide RefundPlatformFeeStep;
    assert Solvent(c, moved) by { CreditsStaySolvent(c, s, moved); }
  }

  lemma SameShare(s: State, i: nat, p: Payment, updated: Payment, requested: int)
    requires updated.mode == p.mode
    ensures FeeRefundShare(s, i, updated, requested) == FeeRefundShare(s, i, p, requested)
  {
  }

  lemma ReturnFeeDraws(c: Config, moved: State, i: nat, p: Payment, share: int)
    requires ReturnFee(moved, i, p, share).Ok?
    ensures Solvent(c, moved) ==>
              (Solvent(c, ReturnFee(moved, i, p, share).value)
               <==> (share > 0 ==> share <= Available(c, moved, Pot(p.book, None))))
  {
    hide Net;
    var t := ReturnFee(moved, i, p, share).value;
    if !Solvent(c, moved) { return; }
    if share > 0 {
      forall pot ensures Gained(moved, t, pot) ==
        (if pot == Pot(p.book, None) then -share else 0) + (if pot == Pot(p.book, p.subaccount) then share else 0)
      {
        MoveGains(moved, p.book, share, None, p.subaccount, FeeRefund, PaymentId(i), pot);
      }
      SolventExactlyWhenItFits(c, moved, t, Draw(Pot(p.book, None), share));
    }
  }

  /** What the release of one transfer adds to one pot. */
  lemma ReleaseRowsGain(t: nat, transfer: Transfer, to: TransferStatus, pot: Pot)
    ensures Sum(ReleaseRows(t, transfer, to), InPot(pot)) ==
            if ReleaseRows(t, transfer, to) == [] then 0 else
            (if pot == Pot(transfer.book, transfer.source)
             then Outstanding(transfer) + transfer.meta.RefundableFee() else 0)
            - (if transfer.destination.Some? && pot == Pot(transfer.book, transfer.destination)
               then Outstanding(transfer) else 0)
  {
    var rows := ReleaseRows(t, transfer, to);
    if rows != [] { SumPair(rows[0], if |rows| == 2 then rows[1] else rows[0], InPot(pot)); }
    hide Sum, TransferMeta.RefundableFee;
  }

  lemma ReleaseGains(s: State, t: nat, to: TransferStatus, patch: TransferMeta, pot: Pot)
    requires TransitionTransferStep(s, t, to, patch).Ok?
    ensures t < |s.transfers|
    ensures var transfer, draw := s.transfers[t], Unchecked(s, TransitionTransfer(t, to, patch));
            var gained := Gained(s, TransitionTransferStep(s, t, to, patch).value, pot);
            if draw.Some? && pot == draw.value.pot then gained == -draw.value.amount else gained >= 0
  {
    hide Sum, TransferMeta.Merge, TransferMoves, Net;
    var updated := s.transfers[t].(status := to, meta := s.transfers[t].meta.Merge(patch));
    PostGains(s, ReleaseRows(t, updated, to), pot);
    ReleaseRowsGain(t, updated, to, pot);
    assert TransitionTransferStep(s, t, to, patch).value.ledger == s.Post(ReleaseRows(t, updated, to)).ledger;
    hide Gained;
  }

  lemma ReleaseDraws(c: Config, s: State, t: nat, to: TransferStatus, patch: TransferMeta)
    requires Solvent(c, s) && TransitionTransferStep(s, t, to, patch).Ok?
    ensures Solvent(c, TransitionTransferStep(s, t, to, patch).value)
            <==> DrawFits(c, s, TransitionTransfer(t, to, patch))
  {
    var after, draw := TransitionTransferStep(s, t, to, patch).value, Unchecked(s, TransitionTransfer(t, to, patch));
    forall pot
      ensures if draw.Some? && pot == draw.value.pot then Gained(s, after, pot) == -draw.value.amount
              else Gained(s, after, pot) >= 0
    {
      ReleaseGains(s, t, to, patch, pot);
    }
    hide Net, Gained, Unchecked;
    if draw.Some? { SolventExactlyWhenItFits(c, s, after, draw.value); } else { CreditsStaySolvent(c, s, after); }
  }

  lemma EntryDraws(c: Config, s: State, credit: bool, pot: Pot, amount: int, text: string, about: Option<Id>)
    requires Solvent(c, s) && BookEntryStep(s, credit, pot, amount, text, about).Ok?
    ensures var t := BookEntryStep(s, credit, pot, amount, text, about).value;
            Solvent(c, t) <==> credit || amount <= Available(c, s, pot)
  {
    hide Net;
    var t, row := BookEntryStep(s, credit, pot, amount, text, about).value, Row(pot, credit, amount, External(text), about);
    forall other ensures Gained(s, t, other) == if other == pot then row.Signed() else 0 { OneRowGains(s, t, row, other); }
    if credit { CreditsStaySolvent(c, s, t); } else { SolventExactlyWhenItFits(c, s, t, Draw(pot, amount)); }
  }

  lemma ExchangeDraws(c: Config, s: State, op: Op)
    requires Solvent(c, s) && op.ExchangeBalance? && !op.checkFunds && Try(c, s, op).Ok?
    ensures Solvent(c, Try(c, s, op).value) <==> DrawFits(c, s, op)
  {
    hide TransitionPaymentStep, CreateRefundStep, TransitionRefundStep, ResolveDisputeStep, CreateTransferStep;
    hide TransitionTransferStep, ReverseTransferStep, RefundPlatformFeeStep, Net;
    var t := Try(c, s, op).value;
    var rows := t.ledger[|s.ledger|..];
    forall pot ensures Gained(s, t, pot) ==
      (if pot == rows[0].pot then -op.fromAmount else 0) + (if pot == rows[1].pot then op.toAmount else 0)
    {
      assert rows == [rows[0], rows[1]];
      PostGains(s, rows, pot);
      SumPair(rows[0], rows[1], InPot(pot));
    }
    SolventExactlyWhenItFits(c, s, t, Draw(rows[0].pot, op.fromAmount));
  }

  /** Steps that write no row at all. */
  lemma RowlessStep(c: Config, s: State, op: Op)
    requires op.CreatePayment? || op.CreateRefund? || op.UpdateTransferMetadata? || op.CreateDispute?
             || op.TransitionDispute? || (op.TransitionRefund? && op.toRefund != RefundStatus.Successful)
    ensures Step(c, s, op).ledger == s.ledger
  {
    hide TransitionPaymentStep, CreateTransferStep, TransitionTransferStep, ReverseTransferStep, RefundPlatformFeeStep;
    hide ResolveDisputeStep, ConcedeRefund, TotalRefunded;
  }

  lemma PlainStepStaysSolvent(c: Config, s: State, op: Op)
    requires ChargesValid(s) && Solvent(c, s) && Try(c, s, op).Ok?
    requires op.TransitionPayment? || op.CreatePayment? || op.CreateRefund? || op.UpdateTransferMetadata?
             || op.CreateDispute? || op.TransitionDispute?
             || (op.TransitionRefund? && op.toRefund != RefundStatus.Successful)
    ensures Solvent(c, Step(c, s, op))
  {
    var t := Step(c, s, op);
    forall pot ensures Gained(s, t, pot) >= 0 {
      if op.TransitionPayment? {
        SettlementGains(s, op.payment, op.toPayment, op.reversal, op.retry, pot);
      } else {
        RowlessStep(c, s, op);
      }
    }
    hide Gained;
    CreditsStaySolvent(c, s, t);
  }

  /** An accepted step keeps every pot at or above zero exactly when what it draws unchecked is there. */
  lemma StepStaysSolventExactlyWhen(c: Config, s: State, op: Op)
    requires c.enforce && ChargesValid(s) && Solvent(c, s) && Try(c, s, op).Ok?
    ensures Solvent(c, Step(c, s, op)) <==> DrawFits(c, s, op)
  {
    hide Solvent, Net;
    match op
    case CreateTransfer(input) => CreateTransferStaysSolvent(c, s, input);
    case TransitionTransfer(t, to, patch) => ReleaseDraws(c, s, t, to, patch);
    case ReverseTransfer(t, requested) => ReverseTransferStaysSolvent(c, s, t, requested);
    case ResolveDispute(d, accepted, requested) => DisputeDraws(c, s, d, accepted, requested);
    case RefundPlatformFee(i, requested) => FeeRefundDraws(c, s, i, requested);
    case CreditBalance(pot, amount, text, about) => EntryDraws(c, s, true, pot, amount, text, about);
    case DebitBalance(pot, amount, text, about) => EntryDraws(c, s, false, pot, amount, text, about);
    case ExchangeBalance(_, _, _, _, _, _, checkFunds, _, _) =>
      if checkFunds { ExchangeStaysSolvent(c, s, op); } else { ExchangeDraws(c, s, op); }
    case TransitionRefund(r, to) =>
      if to == RefundStatus.Successful { RefundDraws(c, s, r); } else { PlainStepStaysSolvent(c, s, op); }
    case _ => PlainStepStaysSolvent(c, s, op);
  }

  /** Solvent at the start, at the end, and after every call between. */
  ghost predicate SolventThroughout(c: Config, s: State, ops: seq<Op>)
    decreases ops
  {
    Solvent(c, s) && (ops != [] ==> SolventThroughout(c, Step(c, s, ops[0]), ops[1..]))
  }

  /** Every accepted call of the run that draws unchecked finds what it draws. */
  predicate AllFit(c: Config, s: State, ops: seq<Op>)
    decreases ops
  {
    ops != [] ==> (Try(c, s, ops[0]).Ok? ==> DrawFits(c, s, ops[0])) && AllFit(c, Step(c, s, ops[0]), ops[1..])
  }

  /** No pot goes below zero during a run exactly when every unchecked draw of the run fits its pot. */
  lemma {:induction false} NeverOverdrawnExactlyWhen(c: Config, s: State, ops: seq<Op>)
    requires c.enforce && ChargesValid(s) && Solvent(c, s)
    ensures SolventThroughout(c, s, ops) <==> AllFit(c, s, ops)
    ensures SolventThroughout(c, s, ops) ==> Solvent(c, Run(c, s, ops))
    decreases ops
  {
    if ops != [] {
      if Try(c, s, ops[0]).Ok? { StepStaysSolventExactlyWhen(c, s, ops[0]); }
      StepKeepsCharges(c, s, ops[0]);
      hide Solvent, DrawFits, ChargesValid;
      if Solvent(c, Step(c, s, ops[0])) { NeverOverdrawnExactlyWhen(c, Step(c, s, ops[0]), ops[1..]); }
    }
  }

  /** Settlements, checked spending, payouts to banks and their failures, reversals, credits. */
  predicate Guarded(s: State, op: Op) {
    match op
    case TransitionRefund(_, to) => to != RefundStatus.Successful
    case TransitionTransfer(t, to, _) => t < |s.transfers| && Releases(to) ==> s.transfers[t].destination.None?
    case RefundPlatformFee(_, _) => false
    case ResolveDispute(_, accepted, _) => !accepted
    case DebitBalance(_, _, _, _) => false
    case ExchangeBalance(_, _, _, _, _, _, checkFunds, _, _) => checkFunds
    case _ => true
  }

  predicate AllGuarded(c: Config, s: State, ops: seq<Op>)
    decreases ops
  {
    ops != [] ==> Guarded(s, ops[0]) && AllGuarded(c, Step(c, s, ops[0]), ops[1..])
  }

  lemma GuardedDrawsNothing(c: Config, s: State, op: Op)
    requires Guarded(s, op)
    ensures Unchecked(s, op).None? && DrawFits(c, s, op)
  {
  }

  lemma {:induction false} GuardedRunsFit(c: Config, s: State, ops: seq<Op>)
    requires AllGuarded(c, s, ops)
    ensures AllFit(c, s, ops)
    decreases ops
  {
    if ops != [] {
      GuardedDrawsNothing(c, s, ops[0]);
      GuardedRunsFit(c, Step(c, s, ops[0]), ops[1..]);
    }
  }

  /** The operations that check before they spend never overdraw a pot. */
  lemma NeverOverdrawn(c: Config, s: State, ops: seq<Op>)
    requires c.enforce && ChargesValid(s) && Solvent(c, s) && AllGuarded(c, s, ops)
    ensures SolventThroughout(c, s, ops) && Solvent(c, Run(c, s, ops))
  {
    GuardedRunsFit(c, s, ops);
    NeverOverdrawnExactlyWhen(c, s, ops);
  }

  lemma OpensSolvent(c: Config)
    ensures Solvent(c, EMPTY) <==> c.opening >= 0
  {
    assert Available(c, EMPTY, Pot(Book("", ""), None)) == c.opening;
  }
}
