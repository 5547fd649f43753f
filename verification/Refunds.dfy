/** Refunds of a payment never exceed it, pending ones included, and the ledger pays out what settled. */
module Refunds {
  import opened Options
  import opened StateMachine
  import opened Storage
  import opened EngineSpec
  import opened Settlement

  function EventCount(s: State, id: Id): nat { if id in s.sequences then s.sequences[id] else 0 }

  /** Successful by a transition, not by being created so: it has a second event. */
  predicate SettledByTransition(s: State, r: nat) {
    r < |s.refunds| && s.refunds[r].status == RefundStatus.Successful && EventCount(s, RefundId(r)) > 1
  }

  /** The first `n` refunds of payment `i` that a transition settled. */
  function SettledTotal(s: State, i: nat, n: nat): int
    requires n <= |s.refunds|
  {
    if n == 0 then 0 else
    SettledTotal(s, i, n - 1)
    + (if SettledByTransition(s, n - 1) && s.refunds[n - 1].payment == i then s.refunds[n - 1].amount else 0)
  }

  function PaidTo(r: nat, pot: Pot): Row -> int {
    (row: Row) => if row.reason == RefundPaid && row.resource == Some(RefundId(r)) && row.pot == pot
                  then -row.Signed() else 0
  }

  /** What the ledger has taken out of a pot to pay a refund. */
  function PaidOut(ledger: seq<Row>, r: nat, pot: Pot): int { Sum(ledger, PaidTo(r, pot)) }

  /** Whose money a refund of the payment is. */
  function RefundPot(p: Payment): Pot { Pot(p.book, if p.mode == Direct then p.subaccount else None) }

  predicate RefundRowsValid(s: State) {
    forall r :: 0 <= r < |s.refunds| ==>
      && s.refunds[r].amount > 0
      && s.refunds[r].payment < |s.payments|
      && s.refunds[r].book == s.payments[s.refunds[r].payment].book
      && EventCount(s, RefundId(r)) > 0
  }

  predicate Bounded(s: State, i: nat)
    requires i < |s.payments|
  {
    var p := s.payments[i];
    && p.amount > 0
    && TotalRefunded(s.refunds, i) <= p.amount
    && SettledTotal(s, i, |s.refunds|) <= p.amountRefunded <= p.amount
  }

  /** The ledger has paid exactly the settled refunds, each once, each from the right pot. */
  ghost predicate PaidExactly(s: State, r: nat, pot: Pot) {
    PaidOut(s.ledger, r, pot) ==
      if SettledByTransition(s, r) && s.refunds[r].payment < |s.payments|
         && pot == RefundPot(s.payments[s.refunds[r].payment])
      then s.refunds[r].amount else 0
  }

  ghost predicate RefundBooks(s: State) {
    && RefundRowsValid(s)
    && (forall i :: 0 <= i < |s.payments| ==> Bounded(s, i))
    && (forall i :: i >= |s.payments| ==> TotalRefunded(s.refunds, i) == 0)
    && (forall r, pot :: PaidExactly(s, r, pot))
    && (forall r :: r >= |s.refunds| ==> RefundId(r) !in s.sequences)
  }

  /* ---------------------------- what each step does to refunds ---------------------------- */

  /** A step that leaves refunds, what has been refunded, and refund rows alone. */
  ghost predicate RefundsUntouched(s: State, t: State) {
    && t.refunds == s.refunds
    && (forall r :: RefundId(r) in t.sequences <==> RefundId(r) in s.sequences)
    && (forall r :: RefundId(r) in t.sequences && RefundId(r) in s.sequences ==>
          t.sequences[RefundId(r)] == s.sequences[RefundId(r)])
    && |s.payments| <= |t.payments|
    && (forall i :: 0 <= i < |s.payments| ==>
          && SameCharge(s.payments[i], t.payments[i])
          && t.payments[i].amountRefunded == s.payments[i].amountRefunded)
    && (forall i :: |s.payments| <= i < |t.payments| ==>
          t.payments[i].amount > 0 && t.payments[i].amountRefunded == 0)
    && |s.ledger| <= |t.ledger| && t.ledger[..|s.ledger|] == s.ledger
    && (forall k :: |s.ledger| <= k < |t.ledger| ==> t.ledger[k].reason != RefundPaid)
  }

  lemma UntouchedSettledTotal(s: State, t: State, i: nat, n: nat)
    requires RefundsUntouched(s, t) && n <= |s.refunds|
    ensures SettledTotal(t, i, n) == SettledTotal(s, i, n)
  {
  }

  lemma {:induction false} NoRefundRows(rows: seq<Row>, r: nat, pot: Pot)
    requires forall row <- rows :: row.reason != RefundPaid
    ensures Sum(rows, PaidTo(r, pot)) == 0
  {
    if rows != [] { NoRefundRows(rows[..|rows| - 1], r, pot); }
  }

  lemma {:induction false} SettledUpTo(s: State, i: nat, n: nat)
    requires n <= |s.refunds| && RefundRowsValid(s)
    ensures 0 <= SettledTotal(s, i, n) <= Sum(s.refunds[..n], CountedFor(i))
  {
    if n > 0 {
      SettledUpTo(s, i, n - 1);
      assert s.refunds[..n][..n - 1] == s.refunds[..n - 1];
    }
  }

  lemma NothingSettled(s: State, i: nat)
    requires RefundRowsValid(s) && TotalRefunded(s.refunds, i) == 0
    ensures SettledTotal(s, i, |s.refunds|) == 0
  {
    SettledUpTo(s, i, |s.refunds|);
    assert s.refunds[..|s.refunds|] == s.refunds;
  }

  lemma UntouchedKeepsBooks(s: State, t: State)
    requires RefundBooks(s) && RefundsUntouched(s, t)
    ensures RefundBooks(t)
  {
    forall i | 0 <= i < |t.payments| ensures Bounded(t, i) {
      UntouchedSettledTotal(s, t, i, |s.refunds|);
      if i < |s.payments| { assert Bounded(s, i); } else { NothingSettled(s, i); }
    }
    forall r, pot ensures PaidExactly(t, r, pot) {
      assert PaidExactly(s, r, pot);
      assert t.ledger == s.ledger + t.ledger[|s.ledger|..];
      SumPost(s.ledger, t.ledger[|s.ledger|..], PaidTo(r, pot));
      NoRefundRows(t.ledger[|s.ledger|..], r, pot);
    }
  }

  /* ---------------------------- the two steps that move refunds ---------------------------- */

  lemma {:induction false} SettledTotalFrame(s: State, t: State, i: nat, n: nat)
    requires n <= |s.refunds| && n <= |t.refunds|
    requires forall r :: 0 <= r < n ==>
      && (SettledByTransition(t, r) <==> SettledByTransition(s, r))
      && t.refunds[r].payment == s.refunds[r].payment && t.refunds[r].amount == s.refunds[r].amount
    ensures SettledTotal(t, i, n) == SettledTotal(s, i, n)
  {
    if n > 0 { SettledTotalFrame(s, t, i, n - 1); }
  }

  /** A refund that fits in what is left of its payment. */
  predicate Fits(s: State, refund: Refund) {
    && refund.payment < |s.payments|
    && refund.book == s.payments[refund.payment].book
    && 0 < refund.amount <= s.payments[refund.payment].amount - TotalRefunded(s.refunds, refund.payment)
  }

  lemma InsertedRefundBounds(s: State, refund: Refund, j: nat)
    requires RefundBooks(s) && Fits(s, refund) && j < |s.payments|
    ensures Bounded(s.InsertRefund(refund), j)
  {
    assert Bounded(s, j);
    SumOne(s.refunds, refund, CountedFor(j));
    SettledTotalFrame(s, s.InsertRefund(refund), j, |s.refunds|);
  }

  lemma InsertedRefundKeepsBooks(s: State, refund: Refund)
    requires RefundBooks(s) && Fits(s, refund)
    ensures RefundBooks(s.InsertRefund(refund))
  {
    hide Bounded, Sum;
    var t := s.InsertRefund(refund);
    forall j | 0 <= j < |t.payments| ensures Bounded(t, j) { InsertedRefundBounds(s, refund, j); }
    forall j | j >= |t.payments| ensures TotalRefunded(t.refunds, j) == 0 {
      assert TotalRefunded(s.refunds, j) == 0;
      SumOne(s.refunds, refund, CountedFor(j));
    }
    forall r, pot ensures PaidExactly(t, r, pot) { assert PaidExactly(s, r, pot); }
  }

  lemma CreateRefundKeepsBooks(s: State, i: nat, requested: Option<int>, status: RefundStatus)
    requires RefundBooks(s) && CreateRefundStep(s, i, requested, status).Ok?
    ensures RefundBooks(CreateRefundStep(s, i, requested, status).value)
  {
    hide RefundBooks, TotalRefunded;
    var refund := CreateRefundStep(s, i, requested, status).value.refunds[|s.refunds|];
    InsertedRefundKeepsBooks(s, refund);
  }

  lemma MovedRefundKeepsBooks(s: State, r: nat, to: RefundStatus)
    requires RefundBooks(s) && r < |s.refunds| && RefundMoves(s.refunds[r].status, to)
    requires to != RefundStatus.Successful
    ensures RefundBooks(s.UpdateRefund(r, s.refunds[r].(status := to)))
  {
    var moved := s.refunds[r].(status := to);
    var t := s.UpdateRefund(r, moved);
    forall j | 0 <= j < |t.payments| ensures Bounded(t, j) {
      assert Bounded(s, j);
      SumUpdate(s.refunds, r, moved, CountedFor(j));
      SettledTotalFrame(s, t, j, |s.refunds|);
    }
    forall j | j >= |t.payments| ensures TotalRefunded(t.refunds, j) == 0 {
      assert TotalRefunded(s.refunds, j) == 0;
      SumUpdate(s.refunds, r, moved, CountedFor(j));
    }
    forall q, pot ensures PaidExactly(t, q, pot) { assert PaidExactly(s, q, pot); }
  }

  /** The refund and payment tables after a settlement. */
  lemma SettledRefundTables(s: State, r: nat)
    requires TransitionRefundStep(s, r, RefundStatus.Successful).Ok?
    ensures var t := TransitionRefundStep(s, r, RefundStatus.Successful).value;
            var paid := s.refunds[r].(status := RefundStatus.Successful);
            var total := TotalRefunded(s.refunds[r := paid], paid.payment);
            && paid.payment < |s.payments|
            && t.refunds == s.refunds[r := paid]
            && t.payments == s.payments[paid.payment := s.payments[paid.payment].(
                 status := RefundedStatus(s.payments[paid.payment].amount, total), amountRefunded := total)]
            && (forall q :: EventCount(t, RefundId(q)) == EventCount(s, RefundId(q)) + (if q == r then 1 else 0))
            && s.refunds[r].status != RefundStatus.Successful && s.refunds[r].status != RefundStatus.Failed
            && t.ledger == s.ledger + [RefundRow(r, s.refunds[r], s.payments[paid.payment])]
  {
  }

  lemma SettledRefundRowsValid(s: State, t: State, r: nat)
    requires RefundBooks(s) && TransitionRefundStep(s, r, RefundStatus.Successful) == Ok(t)
    ensures |t.payments| == |s.payments| && RefundRowsValid(t)
  {
    SettledRefundTables(s, r);
    hide TransitionRefundStep, SettledTotal, Sum, PaidExactly, Bounded;
  }

  /** The payment refunded: its new total is the fold, which covers everything settled. */
  lemma RefundedPaymentStaysBounded(s: State, t: State, r: nat)
    requires RefundRowsValid(s) && RefundRowsValid(t)
    requires TransitionRefundStep(s, r, RefundStatus.Successful) == Ok(t)
    requires s.refunds[r].payment < |s.payments| && Bounded(s, s.refunds[r].payment)
    ensures |t.payments| == |s.payments| && Bounded(t, s.refunds[r].payment)
  {
    SettledRefundTables(s, r);
    hide TransitionRefundStep, Sum, SettledTotal, RefundRowsValid, EventCount, RefundRow;
    var paid := s.refunds[r].(status := RefundStatus.Successful);
    SumUpdate(s.refunds, r, paid, CountedFor(paid.payment));
    SettledUpTo(t, paid.payment, |t.refunds|);
    assert t.refunds[..|t.refunds|] == t.refunds;
  }

  lemma OtherPaymentStaysBounded(s: State, t: State, r: nat, j: nat)
    requires RefundRowsValid(s) && TransitionRefundStep(s, r, RefundStatus.Successful) == Ok(t)
    requires j < |s.payments| && Bounded(s, j) && s.refunds[r].payment != j
    ensures |t.payments| == |s.payments| && Bounded(t, j)
  {
    SettledRefundTables(s, r);
    hide TransitionRefundStep, Sum, SettledTotal;
    SumUpdate(s.refunds, r, s.refunds[r].(status := RefundStatus.Successful), CountedFor(j));
    SettledElsewhere(s, t, r, j, |s.refunds|);
  }

  lemma SettledRefundStaysBounded(s: State, t: State, r: nat, j: nat)
    requires RefundBooks(s) && TransitionRefundStep(s, r, RefundStatus.Successful) == Ok(t)
    requires j < |s.payments|
    ensures |t.payments| == |s.payments| && Bounded(t, j)
  {
    SettledRefundRowsValid(s, t, r);
    assert Bounded(s, j);
    hide TransitionRefundStep, PaidExactly, Bounded;
    if j == s.refunds[r].payment {
      RefundedPaymentStaysBounded(s, t, r);
    } else {
      OtherPaymentStaysBounded(s, t, r, j);
    }
  }

  /** Settling a refund of one payment settles nothing of another. */
  lemma {:induction false} SettledElsewhere(s: State, t: State, r: nat, j: nat, n: nat)
    requires n <= |s.refunds| == |t.refunds|
    requires forall q :: 0 <= q < n ==>
      t.refunds[q].payment == s.refunds[q].payment && t.refunds[q].amount == s.refunds[q].amount
    requires forall q :: 0 <= q < n && q != r ==> (SettledByTransition(t, q) <==> SettledByTransition(s, q))
    requires r < n ==> s.refunds[r].payment != j
    ensures SettledTotal(t, j, n) == SettledTotal(s, j, n)
  {
    if n > 0 { SettledElsewhere(s, t, r, j, n - 1); }
  }

  lemma SettledRefundIsPaid(s: State, t: State, r: nat, q: nat, pot: Pot)
    requires RefundBooks(s) && TransitionRefundStep(s, r, RefundStatus.Successful) == Ok(t)
    ensures PaidExactly(t, q, pot)
  {
    SettledRefundTables(s, r);
    hide TransitionRefundStep;
    var row := RefundRow(r, s.refunds[r], s.payments[s.refunds[r].payment]);
    SumOne(s.ledger, row, PaidTo(q, pot));
    assert PaidExactly(s, q, pot);
    assert SettledByTransition(t, q) <==> q == r || SettledByTransition(s, q);
  }

  lemma TransitionRefundKeepsBooks(s: State, r: nat, to: RefundStatus)
    requires RefundBooks(s) && TransitionRefundStep(s, r, to).Ok?
    ensures RefundBooks(TransitionRefundStep(s, r, to).value)
  {
    if to != RefundStatus.Successful {
      MovedRefundKeepsBooks(s, r, to);
      return;
    }
    var t := TransitionRefundStep(s, r, to).value;
    var paid := s.refunds[r].(status := RefundStatus.Successful);
    forall j | 0 <= j < |t.payments| ensures Bounded(t, j) { SettledRefundStaysBounded(s, t, r, j); }
    forall j | j >= |t.payments| ensures TotalRefunded(t.refunds, j) == 0 {
      assert TotalRefunded(s.refunds, j) == 0;
      SumUpdate(s.refunds, r, paid, CountedFor(j));
    }
    forall q, pot ensures PaidExactly(t, q, pot) { SettledRefundIsPaid(s, t, r, q, pot); }
    SettledRefundRowsValid(s, t, r);
    SettledRefundTables(s, r);
  }

  lemma ResolveDisputeKeepsBooks(s: State, d: nat, accepted: bool, requested: Option<int>)
    requires RefundBooks(s) && ResolveDisputeStep(s, d, accepted, requested).Ok?
    ensures RefundBooks(ResolveDisputeStep(s, d, accepted, requested).value)
  {
    var i, amount := s.disputes[d].payment, Default(requested, s.disputes[d].refundAmount);
    if accepted && amount > 0 {
      var created := CreateRefundStep(s, i, Some(amount), RefundStatus.Pending);
      CreateRefundKeepsBooks(s, i, Some(amount), RefundStatus.Pending);
      TransitionRefundKeepsBooks(created.value, |s.refunds|, RefundStatus.Successful);
      ClosingLeavesRefunds(ConcedeRefund(s, i, amount).value, d, accepted, amount);
    } else {
      ClosingLeavesRefunds(s, d, accepted, amount);
    }
  }

  lemma ClosingLeavesRefunds(s: State, d: nat, accepted: bool, amount: int)
    requires RefundBooks(s) && d < |s.disputes|
    ensures RefundBooks(CloseDispute(s, d, accepted, amount))
  {
    UntouchedKeepsBooks(s, CloseDispute(s, d, accepted, amount));
  }

  /** When a refund can settle: the table's `partially_refunded` self-edge is refused as a no-op,
      so a second settlement must complete the payment. */
  lemma SettlesExactlyWhen(s: State, r: nat)
    requires r < |s.refunds| && s.refunds[r].payment < |s.payments| && s.refunds[r].amount > 0
    ensures var refund := s.refunds[r];
            var p := s.payments[refund.payment];
            TransitionRefundStep(s, r, RefundStatus.Successful).Ok? <==>
              && RefundMoves(refund.status, RefundStatus.Successful)
              && (p.status == PaymentStatus.Successful
                  || (p.status == PartiallyRefunded && TotalRefunded(s.refunds, refund.payment) >= p.amount))
  {
    var paid := s.refunds[r].(status := RefundStatus.Successful);
    SumUpdate(s.refunds, r, paid, CountedFor(paid.payment));
  }

  /** Every refund of payment `i` among the first `n`, other than `r`, that counts has been settled by a transition. */
  predicate AllCountedSettled(s: State, i: nat, n: nat, r: nat)
    requires n <= |s.refunds|
  {
    forall q :: 0 <= q < n && q != r && s.refunds[q].payment == i && s.refunds[q].status != RefundStatus.Failed ==>
      SettledByTransition(s, q)
  }

  lemma {:induction false} SettledIsCountedExactlyWhen(s: State, i: nat, n: nat)
    requires n <= |s.refunds| && RefundRowsValid(s)
    ensures SettledTotal(s, i, n) == Sum(s.refunds[..n], CountedFor(i)) <==> AllCountedSettled(s, i, n, |s.refunds|)
  {
    if n > 0 {
      SettledIsCountedExactlyWhen(s, i, n - 1);
      SettledUpTo(s, i, n - 1);
      assert s.refunds[..n][..n - 1] == s.refunds[..n - 1];
      assert AllCountedSettled(s, i, n, |s.refunds|) <==>
             && AllCountedSettled(s, i, n - 1, |s.refunds|)
             && (s.refunds[n - 1].payment == i && s.refunds[n - 1].status != RefundStatus.Failed ==>
                   SettledByTransition(s, n - 1));
    }
  }

  /** `amountRefunded` is what has settled exactly when no other refund of the payment is still open. */
  lemma RefundedIsSettledExactlyWhen(s: State, t: State, r: nat)
    requires RefundBooks(s) && TransitionRefundStep(s, r, RefundStatus.Successful) == Ok(t)
    ensures var i := s.refunds[r].payment;
            && i < |t.payments| && |t.refunds| == |s.refunds|
            && (t.payments[i].amountRefunded == SettledTotal(t, i, |t.refunds|)
                <==> AllCountedSettled(s, i, |s.refunds|, r))
  {
    var i := s.refunds[r].payment;
    SettledRefundRowsValid(s, t, r);
    SettledRefundTables(s, r);
    hide TransitionRefundStep, Sum, SettledTotal, RefundBooks, RefundRowsValid;
    assert t.refunds[..|t.refunds|] == t.refunds;
    SettledIsCountedExactlyWhen(t, i, |t.refunds|);
    OthersUnchanged(s, t, r, i);
  }

  lemma OthersUnchanged(s: State, t: State, r: nat, i: nat)
    requires r < |s.refunds| && t.refunds == s.refunds[r := s.refunds[r].(status := RefundStatus.Successful)]
    requires forall q :: EventCount(t, RefundId(q)) == EventCount(s, RefundId(q)) + (if q == r then 1 else 0)
    requires EventCount(s, RefundId(r)) > 0
    ensures AllCountedSettled(t, i, |t.refunds|, |t.refunds|) <==> AllCountedSettled(s, i, |s.refunds|, r)
  {
    hide EventCount;
    assert SettledByTransition(t, r);
    assert forall q :: 0 <= q < |s.refunds| && q != r ==> t.refunds[q] == s.refunds[q];
    assert forall q :: 0 <= q < |s.refunds| && q != r ==> (SettledByTransition(t, q) <==> SettledByTransition(s, q));
  }

  /** Of a payment of 100, refunds of 30 and 40 are open. Settling the 30 records 70, and it stays 70 when the 40 fails. */
  lemma RefundedRunsAhead(s: State, book: Book)
    requires s.payments == [Payment(book, 100, PaymentStatus.Successful, 0, None, Ordinary, 0, 0)]
    requires s.refunds == [Refund(0, book, 30, RefundStatus.Pending), Refund(0, book, 40, RefundStatus.Pending)]
    requires EventCount(s, RefundId(0)) == EventCount(s, RefundId(1)) == 1
    ensures var settled := TransitionRefundStep(s, 0, RefundStatus.Successful);
            && settled.Ok? && |settled.value.payments| == 1 && |settled.value.refunds| == 2
            && settled.value.payments[0].amountRefunded == 70 && SettledTotal(settled.value, 0, 2) == 30
    ensures var failed := TransitionRefundStep(TransitionRefundStep(s, 0, RefundStatus.Successful).value, 1, RefundStatus.Failed);
            && failed.Ok? && |failed.value.payments| == 1 && |failed.value.refunds| == 2
            && failed.value.payments[0].amountRefunded == 70 && SettledTotal(failed.value, 0, 2) == 30
  {
    var paid := s.refunds[0].(status := RefundStatus.Successful);
    SumPair(paid, s.refunds[1], CountedFor(0));
    assert s.refunds[0 := paid] == [paid, s.refunds[1]];
    SettlesExactlyWhen(s, 0);
    SettledRefundTables(s, 0);
    var t := TransitionRefundStep(s, 0, RefundStatus.Successful).value;
    assert SettledByTransition(t, 0) && !SettledByTransition(t, 1);
    assert SettledTotal(t, 0, 2) == SettledTotal(t, 0, 1) + 0 && SettledTotal(t, 0, 1) == SettledTotal(t, 0, 0) + 30;
    FailingLeavesSettled(t, 1, 0);
  }

  /** A refund that fails takes nothing off what its payment records as refunded. */
  lemma FailingLeavesSettled(s: State, r: nat, i: nat)
    requires r < |s.refunds| && RefundMoves(s.refunds[r].status, RefundStatus.Failed)
    ensures TransitionRefundStep(s, r, RefundStatus.Failed).Ok?
    ensures var t := TransitionRefundStep(s, r, RefundStatus.Failed).value;
            && t.payments == s.payments && |t.refunds| == |s.refunds|
            && SettledTotal(t, i, |t.refunds|) == SettledTotal(s, i, |s.refunds|)
  {
    var t := TransitionRefundStep(s, r, RefundStatus.Failed).value;
    SettledTotalFrame(s, t, i, |s.refunds|);
  }

  /** Of two partial refunds of a payment only one can settle while part of it is left. */
  lemma SecondPartialRefundAborts(s: State, book: Book)
    requires s.payments == [Payment(book, 100, PartiallyRefunded, 60, None, Ordinary, 0, 0)]
    requires s.refunds == [Refund(0, book, 30, RefundStatus.Successful), Refund(0, book, 30, RefundStatus.Pending)]
    ensures RefundMoves(s.refunds[1].status, RefundStatus.Successful)
    ensures TransitionRefundStep(s, 1, RefundStatus.Successful).Err?
  {
    SumPair(s.refunds[0], s.refunds[1], CountedFor(0));
    SettlesExactlyWhen(s, 1);
  }

  /* ---------------------------- whole runs ---------------------------- */

  lemma SettlementLeavesRefunds(s: State, i: nat, to: PaymentStatus, reversal: bool, retry: bool)
    requires TransitionPaymentStep(s, i, to, reversal, retry).Ok?
    ensures RefundsUntouched(s, TransitionPaymentStep(s, i, to, reversal, retry).value)
  {
    hide PaymentMoves, ForwardRows, ChargeRows;
    if to == PaymentStatus.Successful {
      SettlementLedger(s, i, reversal, retry);
      SettlementRows(s, i);
    }
  }

  lemma SettlementRows(s: State, i: nat)
    requires i < |s.payments|
    ensures forall row <- ChargeRows(i, s.payments[i]) + ForwardRows(s, i, s.payments[i]) :: row.reason != RefundPaid
  {
  }

  lemma UntouchedTwice(s: State, t: State, u: State)
    requires RefundsUntouched(s, t) && RefundsUntouched(t, u)
    ensures RefundsUntouched(s, u)
  {
    assert u.ledger[..|s.ledger|] == u.ledger[..|t.ledger|][..|s.ledger|];
    forall k | |s.ledger| <= k < |u.ledger| ensures u.ledger[k].reason != RefundPaid {
      if k < |t.ledger| { assert u.ledger[..|t.ledger|][k] == t.ledger[k]; }
    }
  }

  lemma PostLeavesRefunds(s: State, rows: seq<Row>)
    requires forall r <- rows :: r.reason != RefundPaid
    ensures RefundsUntouched(s, s.Post(rows))
  {
  }

  lemma UpdateTransferLeavesRefunds(s: State, t: nat, transfer: Transfer)
    requires t < |s.transfers|
    ensures RefundsUntouched(s, s.UpdateTransfer(t, transfer))
  {
  }

  lemma UpdatePaymentLeavesRefunds(s: State, i: nat, p: Payment)
    requires i < |s.payments| && SameCharge(s.payments[i], p) && p.amountRefunded == s.payments[i].amountRefunded
    ensures RefundsUntouched(s, s.UpdatePayment(i, p))
  {
  }

  lemma CreateTransferLeavesRefunds(c: Config, s: State, input: TransferInput)
    requires CreateTransferStep(c, s, input).Ok?
    ensures RefundsUntouched(s, CreateTransferStep(c, s, input).value)
  {
    var created := NewTransfer(input);
    assert RefundsUntouched(s, s.InsertTransfer(created));
    if input.reserve {
      PostLeavesRefunds(s.InsertTransfer(created),
                        ReserveRows(|s.transfers|, created, Max0(Default(input.fee, 0)), input.toPlatform));
      UntouchedTwice(s, s.InsertTransfer(created), CreateTransferStep(c, s, input).value);
    }
  }

  lemma TransitionTransferLeavesRefunds(s: State, t: nat, to: TransferStatus, patch: TransferMeta)
    requires TransitionTransferStep(s, t, to, patch).Ok?
    ensures RefundsUntouched(s, TransitionTransferStep(s, t, to, patch).value)
  {
    var updated := s.transfers[t].(status := to, meta := s.transfers[t].meta.Merge(patch));
    UpdateTransferLeavesRefunds(s, t, updated);
    PostLeavesRefunds(s.UpdateTransfer(t, updated), ReleaseRows(t, updated, to));
    UntouchedTwice(s, s.UpdateTransfer(t, updated), TransitionTransferStep(s, t, to, patch).value);
  }

  lemma ReverseTransferLeavesRefunds(c: Config, s: State, t: nat, amount: Option<int>)
    requires ReverseTransferStep(c, s, t, amount).Ok?
    ensures RefundsUntouched(s, ReverseTransferStep(c, s, t, amount).value)
  {
    var transfer := s.transfers[t];
    var requested := Default(amount, transfer.amount - transfer.amountReversed);
    var moved := s.UpdateTransfer(t, AfterReversal(transfer, requested));
    UpdateTransferLeavesRefunds(s, t, AfterReversal(transfer, requested));
    PostLeavesRefunds(moved, MoveRows(transfer.book, requested, transfer.destination, transfer.source,
                                      TransferReversal, TransferId(t)));
    UntouchedTwice(s, moved, ReverseTransferStep(c, s, t, amount).value);
  }

  lemma ReturnFeeLeavesRefunds(s: State, i: nat, p: Payment, movable: int)
    requires ReturnFee(s, i, p, movable).Ok?
    ensures RefundsUntouched(s, ReturnFee(s, i, p, movable).value)
  {
  }

  lemma RefundPlatformFeeLeavesRefunds(s: State, i: nat, amount: Option<int>)
    requires RefundPlatformFeeStep(s, i, amount).Ok?
    ensures RefundsUntouched(s, RefundPlatformFeeStep(s, i, amount).value)
  {
    hide FeeRefundShare;
    var p := s.payments[i];
    var requested := Default(amount, p.platformFee - p.feeRefunded);
    var updated := p.(feeRefunded := p.feeRefunded + requested);
    UpdatePaymentLeavesRefunds(s, i, updated);
    ReturnFeeLeavesRefunds(s.UpdatePayment(i, updated), i, updated, FeeRefundShare(s, i, updated, requested));
    UntouchedTwice(s, s.UpdatePayment(i, updated), RefundPlatformFeeStep(s, i, amount).value);
  }

  lemma OtherStepLeavesRefunds(c: Config, s: State, op: Op)
    requires op.CreatePayment? || op.UpdateTransferMetadata? || op.CreateDispute? || op.TransitionDispute?
             || op.CreditBalance? || op.DebitBalance? || op.ExchangeBalance?
    requires Try(c, s, op).Ok?
    ensures RefundsUntouched(s, Try(c, s, op).value)
  {
    hide TransitionPaymentStep, CreateRefundStep, TransitionRefundStep, ResolveDisputeStep, CreateTransferStep;
    hide TransitionTransferStep, ReverseTransferStep, RefundPlatformFeeStep;
  }

  lemma StepLeavesRefunds(c: Config, s: State, op: Op)
    requires !(op.CreateRefund? || op.TransitionRefund? || op.ResolveDispute?)
    requires Try(c, s, op).Ok?
    ensures RefundsUntouched(s, Try(c, s, op).value)
  {
    match op
    case TransitionPayment(i, to, reversal, retry) => SettlementLeavesRefunds(s, i, to, reversal, retry);
    case CreateTransfer(input) => CreateTransferLeavesRefunds(c, s, input);
    case TransitionTransfer(t, to, patch) => TransitionTransferLeavesRefunds(s, t, to, patch);
    case ReverseTransfer(t, requested) => ReverseTransferLeavesRefunds(c, s, t, requested);
    case RefundPlatformFee(i, requested) => RefundPlatformFeeLeavesRefunds(s, i, requested);
    case _ => OtherStepLeavesRefunds(c, s, op);
  }

  lemma StepKeepsRefundBooks(c: Config, s: State, op: Op)
    requires RefundBooks(s)
    ensures RefundBooks(Step(c, s, op))
  {
    if Try(c, s, op).Ok? {
      match op
      case CreateRefund(i, requested, status) => CreateRefundKeepsBooks(s, i, requested, status);
      case TransitionRefund(r, to) => TransitionRefundKeepsBooks(s, r, to);
      case ResolveDispute(d, accepted, requested) => ResolveDisputeKeepsBooks(s, d, accepted, requested);
      case _ =>
        StepLeavesRefunds(c, s, op);
        UntouchedKeepsBooks(s, Try(c, s, op).value);
    }
  }

  /** Over every run, refunds stay within their payment and the ledger pays what settled. */
  lemma {:induction false} RefundsStayBounded(c: Config, s: State, ops: seq<Op>)
    requires RefundBooks(s)
    ensures RefundBooks(Run(c, s, ops))
    decreases ops
  {
    if ops != [] {
      StepKeepsRefundBooks(c, s, ops[0]);
      RefundsStayBounded(c, Step(c, s, ops[0]), ops[1..]);
    }
  }

  lemma EmptyRefundBooks()
    ensures RefundBooks(EMPTY)
  {
    assert forall r, pot :: PaidExactly(EMPTY, r, pot);
  }
}
