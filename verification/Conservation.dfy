/** Conservation: a book holds what was collected, less what was refunded, paid out or kept as fees. */
module Conservation {
  import opened Options
  import opened StateMachine
  import opened Storage
  import opened EngineSpec
  import opened EventLog
  import opened Settlement
  import opened Accounts
  import Refunds
  import Transfers

  /* ---------------------------- regrouping a sum by key ---------------------------- */

  function Total(n: nat, term: nat -> int): int { if n == 0 then 0 else Total(n - 1, term) + term(n - 1) }

  lemma {:induction false} TotalSame(n: nat, term: nat -> int, other: nat -> int)
    requires forall k: nat :: k < n ==> term(k) == other(k)
    ensures Total(n, term) == Total(n, other)
  {
    if n > 0 { TotalSame(n - 1, term, other); }
  }

  lemma {:induction false} SumSame(rows: seq<Row>, f: Row -> int, g: Row -> int)
    requires forall r <- rows :: f(r) == g(r)
    ensures Sum(rows, f) == Sum(rows, g)
  {
    if rows != [] { SumSame(rows[..|rows| - 1], f, g); }
  }

  lemma {:induction false} SumAdd(rows: seq<Row>, f: Row -> int, g: Row -> int, both: Row -> int)
    requires forall r <- rows :: both(r) == f(r) + g(r)
    ensures Sum(rows, both) == Sum(rows, f) + Sum(rows, g)
  {
    if rows != [] { SumAdd(rows[..|rows| - 1], f, g, both); }
  }

  /** The rows of one class that name row `k` of its table, in one book. */
  function InClassOf(class_: RowClass, book: Book, k: nat): Row -> int {
    (r: Row) => if ClassOf(r) == class_ && r.pot.book == book && r.resource.Some? && r.resource.value.n == k
                then r.Signed() else 0
  }

  function InClassBelow(class_: RowClass, book: Book, n: nat): Row -> int {
    (r: Row) => if ClassOf(r) == class_ && r.pot.book == book && r.resource.Some? && r.resource.value.n < n
                then r.Signed() else 0
  }

  function InClass(class_: RowClass, book: Book): Row -> int {
    (r: Row) => if ClassOf(r) == class_ && r.pot.book == book then r.Signed() else 0
  }

  function PerRow(rows: seq<Row>, class_: RowClass, book: Book): nat -> int {
    (k: nat) => Sum(rows, InClassOf(class_, book, k))
  }

  lemma {:induction false} GroupByRow(rows: seq<Row>, class_: RowClass, book: Book, n: nat)
    ensures Total(n, PerRow(rows, class_, book)) == Sum(rows, InClassBelow(class_, book, n))
  {
    if n == 0 {
      NothingBelowZero(rows, class_, book);
    } else {
      GroupByRow(rows, class_, book, n - 1);
      SumAdd(rows, InClassBelow(class_, book, n - 1), InClassOf(class_, book, n - 1), InClassBelow(class_, book, n));
    }
  }

  lemma {:induction false} NothingBelowZero(rows: seq<Row>, class_: RowClass, book: Book)
    ensures Sum(rows, InClassBelow(class_, book, 0)) == 0
  {
    if rows != [] { NothingBelowZero(rows[..|rows| - 1], class_, book); }
  }

  /** A book is the sum of its five classes of row. */
  lemma {:induction false} BookByClass(rows: seq<Row>, book: Book)
    ensures BookTotal(rows, book) ==
      Sum(rows, InClass(ChargeClass, book)) + Sum(rows, InClass(RefundClass, book))
      + Sum(rows, InClass(TransferClass, book)) + Sum(rows, InClass(FeeClass, book))
      + Sum(rows, InClass(ExternalClass, book))
  {
    if rows != [] { BookByClass(rows[..|rows| - 1], book); }
  }

  function OwnedBy(book: Book, owners: seq<Owner>): Row -> int {
    (r: Row) => if r.pot.book == book && r.pot.owner in owners then r.Signed() else 0
  }

  function PotsTotal(rows: seq<Row>, book: Book, owners: seq<Owner>): int {
    if owners == [] then 0
    else PotsTotal(rows, book, owners[1..]) + Net(rows, Pot(book, owners[0]))
  }

  lemma {:induction false} PotsOwned(rows: seq<Row>, book: Book, owners: seq<Owner>)
    requires forall i, j :: 0 <= i < j < |owners| ==> owners[i] != owners[j]
    ensures PotsTotal(rows, book, owners) == Sum(rows, OwnedBy(book, owners))
  {
    if owners == [] {
      OtherClassSumsZero(rows, OwnedBy(book, owners));
    } else {
      PotsOwned(rows, book, owners[1..]);
      forall r | r in rows
        ensures OwnedBy(book, owners)(r) == OwnedBy(book, owners[1..])(r) + InPot(Pot(book, owners[0]))(r)
      {
        assert r.pot.owner in owners <==> r.pot.owner == owners[0] || r.pot.owner in owners[1..];
      }
      SumAdd(rows, OwnedBy(book, owners[1..]), InPot(Pot(book, owners[0])), OwnedBy(book, owners));
    }
  }

  /** A book's total is the sum of its owners' balances, each owner counted once. */
  lemma PotsMakeTheBook(rows: seq<Row>, book: Book, owners: seq<Owner>)
    requires forall i, j :: 0 <= i < j < |owners| ==> owners[i] != owners[j]
    requires forall r <- rows :: r.pot.book == book ==> r.pot.owner in owners
    ensures PotsTotal(rows, book, owners) == BookTotal(rows, book)
  {
    PotsOwned(rows, book, owners);
    SumSame(rows, OwnedBy(book, owners), InBook(book));
  }

  /* ---------------------------- what each table's rows are worth ---------------------------- */

  /** What the payment put into the book: its amount, for every time the log says it was settled. */
  function CollectedFor(s: State, book: Book): nat -> int {
    (i: nat) =>
      if i < |s.payments| && s.payments[i].book == book then Times(s.payments[i].amount, SettledTimes(s.events, i)) else 0
  }

  /** What the refund took out: its amount, if a transition settled it. */
  function RefundedFor(s: State, book: Book): nat -> int {
    (r: nat) =>
      if Refunds.SettledByTransition(s, r) && s.refunds[r].book == book then s.refunds[r].amount else 0
  }

  /** What the transfer keeps out of the balances. */
  function KeptBy(s: State, terms: seq<Transfers.Terms>, book: Book): nat -> int {
    (t: nat) =>
      if t < |s.transfers| && t < |terms| && s.transfers[t].book == book
      then Transfers.Kept(s.transfers[t], terms[t]) else 0
  }

  /** What it was to keep, by the terms of its creation. */
  function PromisedBy(s: State, terms: seq<Transfers.Terms>, book: Book): nat -> int {
    (t: nat) =>
      if t < |s.transfers| && t < |terms| && s.transfers[t].book == book
      then Transfers.Promised(s.transfers[t], terms[t]) else 0
  }

  function External(s: State, book: Book): int { Sum(s.ledger, InClass(ExternalClass, book)) }

  /* ---------------------------- charges ---------------------------- */

  /** The ledger has charged every payment once for every settlement the log reports. */
  ghost predicate ChargesRecorded(s: State) {
    forall i, book :: 0 <= i < |s.payments| ==>
      Sum(s.ledger, InClassOf(ChargeClass, book, i)) == CollectedFor(s, book)(i)
  }

  /** Fee refunds only move money between the pots of a book. */
  ghost predicate FeesBalance(s: State) {
    forall book :: Sum(s.ledger, InClass(FeeClass, book)) == 0
  }

  ghost predicate Sound(s: State, terms: seq<Transfers.Terms>) {
    && LogAgrees(s) && ChargesValid(s) && RowsValid(s) && ChargesRecorded(s) && FeesBalance(s)
    && Refunds.RefundBooks(s) && Transfers.AllBooked(s, terms)
  }

  lemma {:induction false} OtherClassSumsZero(rows: seq<Row>, weight: Row -> int)
    requires forall r <- rows :: weight(r) == 0
    ensures Sum(rows, weight) == 0
  {
    if rows != [] { OtherClassSumsZero(rows[..|rows| - 1], weight); }
  }

  lemma ChargeRowsWorth(i: nat, p: Payment, k: nat, book: Book)
    requires p.amount > 0 && p.platformFee >= 0
    ensures Sum(ChargeRows(i, p), InClassOf(ChargeClass, book, k)) == if k == i && p.book == book then p.amount else 0
  {
    ChargeRowsAdd(i, p, InClassOf(ChargeClass, book, k));
  }

  lemma ForwardRowsUncharged(s: State, i: nat, p: Payment, k: nat, book: Book)
    ensures Sum(ForwardRows(s, i, p), InClassOf(ChargeClass, book, k)) == 0
  {
    OtherClassSumsZero(ForwardRows(s, i, p), InClassOf(ChargeClass, book, k));
  }

  /** The charge rows a settlement writes for payment `j` are worth its amount in its book. */
  lemma SettlementRecords(s: State, j: nat, reversal: bool, retry: bool, i: nat, book: Book)
    requires TransitionPaymentStep(s, j, PaymentStatus.Successful, reversal, retry).Ok?
    requires s.payments[j].amount > 0 && s.payments[j].platformFee >= 0
    ensures Sum(TransitionPaymentStep(s, j, PaymentStatus.Successful, reversal, retry).value.ledger,
                InClassOf(ChargeClass, book, i))
            == Sum(s.ledger, InClassOf(ChargeClass, book, i))
               + (if i == j && s.payments[j].book == book then s.payments[j].amount else 0)
  {
    var p := s.payments[j];
    var weight := InClassOf(ChargeClass, book, i);
    SettlementLedger(s, j, reversal, retry);
    hide TransitionPaymentStep, Sum, ChargeRows, ForwardRows, InClassOf;
    SumPost(s.ledger, ChargeRows(j, p), weight);
    SumPost(s.ledger + ChargeRows(j, p), ForwardRows(s, j, p), weight);
    ChargeRowsWorth(j, p, i, book);
    ForwardRowsUncharged(s, j, p, i, book);
  }

  /** Rows of other classes count for nothing in a class. */
  lemma OtherClassesGrow(s: State, t: State, classes: set<RowClass>, class_: RowClass, weight: Row -> int)
    requires GrownBy(s, t, classes) && class_ !in classes
    requires forall r :: ClassOf(r) != class_ ==> weight(r) == 0
    ensures Sum(t.ledger, weight) == Sum(s.ledger, weight)
  {
    hide Sum, RowValid;
    var rows := t.ledger[|s.ledger|..];
    assert t.ledger == s.ledger + rows;
    forall r | r in rows ensures weight(r) == 0 {
      var k :| 0 <= k < |rows| && rows[k] == r;
      assert t.ledger[|s.ledger| + k] == r;
    }
    SumPost(s.ledger, rows, weight);
    OtherClassSumsZero(rows, weight);
  }

  /** A step other than a settlement writes no charge row. */
  lemma OtherStepRecordsNothing(c: Config, s: State, op: Op, i: nat, book: Book)
    requires !(op.TransitionPayment? && op.toPayment == PaymentStatus.Successful)
    ensures Sum(Step(c, s, op).ledger, InClassOf(ChargeClass, book, i)) == Sum(s.ledger, InClassOf(ChargeClass, book, i))
  {
    var t := Step(c, s, op);
    if op.TransitionPayment? {
      TransitionWithoutRows(s, op.payment, op.toPayment, op.reversal, op.retry);
    } else {
      hide Step, Try, Sum, GrownBy, ClassOf;
      StepGrows(c, s, op);
      OtherClassesGrow(s, t, ClassesOf(op), ChargeClass, InClassOf(ChargeClass, book, i));
    }
  }

  lemma TransitionWithoutRows(s: State, i: nat, to: PaymentStatus, reversal: bool, retry: bool)
    requires to != PaymentStatus.Successful
    ensures var r := TransitionPaymentStep(s, i, to, reversal, retry); r.Ok? ==> r.value.ledger == s.ledger
  {
  }

  /** How one step changes what is recorded for a payment. */
  lemma ChargeRecordMoves(c: Config, s: State, op: Op, i: nat, book: Book)
    requires ChargesValid(s) && i < |s.payments|
    ensures Sum(Step(c, s, op).ledger, InClassOf(ChargeClass, book, i))
            == Sum(s.ledger, InClassOf(ChargeClass, book, i))
               + (if Settles(c, s, op, i) && s.payments[i].book == book then s.payments[i].amount else 0)
  {
    if op.TransitionPayment? && op.toPayment == PaymentStatus.Successful {
      if Try(c, s, op).Ok? {
        SettlementRecords(s, op.payment, op.reversal, op.retry, i, book);
      }
    } else {
      OtherStepRecordsNothing(c, s, op, i, book);
    }
  }

  lemma StepKeepsChargeRecord(c: Config, s: State, op: Op)
    requires LogAgrees(s) && ChargesValid(s) && RowsValid(s) && ChargesRecorded(s)
    ensures ChargesRecorded(Step(c, s, op))
  {
    var t := Step(c, s, op);
    forall i, book | 0 <= i < |t.payments|
      ensures Sum(t.ledger, InClassOf(ChargeClass, book, i)) == CollectedFor(t, book)(i)
    {
      if i < |s.payments| {
        OldChargeRecorded(c, s, op, i, book);
      } else {
        NewPayment(c, s, op, i);
        NewChargeRecorded(c, s, op, book);
      }
    }
  }

  lemma {:induction false} NoTimelineNoSettlement(events: seq<Event>, i: nat)
    requires Timeline(events, PaymentId(i)) == []
    ensures SettledTimes(events, i) == 0
  {
    if events != [] { NoTimelineNoSettlement(events[..|events| - 1], i); }
  }

  lemma NewChargeRecorded(c: Config, s: State, op: Op, book: Book)
    requires op.CreatePayment? && Try(c, s, op).Ok? && LogAgrees(s) && RowsValid(s)
    ensures var t, i := Step(c, s, op), |s.payments|;
            && |t.payments| == i + 1
            && Sum(t.ledger, InClassOf(ChargeClass, book, i)) == 0 == CollectedFor(t, book)(i)
  {
    var t, i := Step(c, s, op), |s.payments|;
    assert Agrees(s, PaymentId(i));
    NoTimelineNoSettlement(s.events, i);
    StepLogsSettlement(c, s, op, i);
    OtherClassSumsZero(s.ledger, InClassOf(ChargeClass, book, i));
    hide Sum, SettledTimes;
  }

  lemma CollectedMoves(s: State, t: State, i: nat, book: Book, settles: bool)
    requires i < |s.payments| && i < |t.payments| && SameCharge(s.payments[i], t.payments[i])
    requires SettledTimes(t.events, i) == SettledTimes(s.events, i) + One(settles)
    ensures CollectedFor(t, book)(i) == CollectedFor(s, book)(i)
                                        + (if settles && s.payments[i].book == book then s.payments[i].amount else 0)
  {
    hide SettledTimes, Times;
    TimesOneMore(s.payments[i].amount, SettledTimes(s.events, i));
  }

  lemma OldChargeRecorded(c: Config, s: State, op: Op, i: nat, book: Book)
    requires ChargesValid(s) && ChargesRecorded(s) && i < |s.payments|
    ensures i < |Step(c, s, op).payments|
    ensures Sum(Step(c, s, op).ledger, InClassOf(ChargeClass, book, i)) == CollectedFor(Step(c, s, op), book)(i)
  {
    hide Sum, Step, Try, SettledTimes, Settles, ChargesValid, InClassOf, CollectedFor;
    StepOnPayment(c, s, op, i);
    StepLogsSettlement(c, s, op, i);
    ChargeRecordMoves(c, s, op, i, book);
    CollectedMoves(s, Step(c, s, op), i, book, Settles(c, s, op, i));
  }

  /* ---------------------------- fee refunds ---------------------------- */

  lemma ReturnFeeBalances(s: State, i: nat, p: Payment, movable: int, book: Book)
    requires ReturnFee(s, i, p, movable).Ok?
    ensures Sum(ReturnFee(s, i, p, movable).value.ledger, InClass(FeeClass, book)) == Sum(s.ledger, InClass(FeeClass, book))
  {
    if movable > 0 {
      var rows := MoveRows(p.book, movable, None, p.subaccount, FeeRefund, PaymentId(i));
      SumPost(s.ledger, rows, InClass(FeeClass, book));
      SumPair(rows[0], rows[1], InClass(FeeClass, book));
    }
  }

  lemma FeeStepBalances(s: State, i: nat, amount: Option<int>, book: Book)
    requires RefundPlatformFeeStep(s, i, amount).Ok?
    ensures Sum(RefundPlatformFeeStep(s, i, amount).value.ledger, InClass(FeeClass, book))
            == Sum(s.ledger, InClass(FeeClass, book))
  {
    hide FeeRefundShare, Sum;
    var p := s.payments[i];
    var requested := Default(amount, p.platformFee - p.feeRefunded);
    var updated := p.(feeRefunded := p.feeRefunded + requested);
    ReturnFeeBalances(s.UpdatePayment(i, updated), i, updated, FeeRefundShare(s, i, updated, requested), book);
  }

  lemma StepKeepsFeesBalanced(c: Config, s: State, op: Op)
    requires FeesBalance(s)
    ensures FeesBalance(Step(c, s, op))
  {
    var t := Step(c, s, op);
    forall book ensures Sum(t.ledger, InClass(FeeClass, book)) == 0 {
      if op.RefundPlatformFee? {
        if Try(c, s, op).Ok? { FeeStepBalances(s, op.payment, op.requested, book); }
      } else {
        OtherStepMovesNoFee(c, s, op, book);
      }
    }
  }

  lemma OtherStepMovesNoFee(c: Config, s: State, op: Op, book: Book)
    requires !op.RefundPlatformFee?
    ensures Sum(Step(c, s, op).ledger, InClass(FeeClass, book)) == Sum(s.ledger, InClass(FeeClass, book))
  {
    hide Step, Try, Sum, GrownBy, ClassOf;
    StepGrows(c, s, op);
    OtherClassesGrow(s, Step(c, s, op), ClassesOf(op), FeeClass, InClass(FeeClass, book));
  }

  /* ---------------------------- the balance sheet ---------------------------- */

  lemma ChargeTotal(s: State, book: Book)
    requires RowsValid(s) && ChargesRecorded(s)
    ensures Sum(s.ledger, InClass(ChargeClass, book)) == Total(|s.payments|, CollectedFor(s, book))
  {
    GroupByRow(s.ledger, ChargeClass, book, |s.payments|);
    SumSame(s.ledger, InClass(ChargeClass, book), InClassBelow(ChargeClass, book, |s.payments|));
    TotalSame(|s.payments|, PerRow(s.ledger, ChargeClass, book), CollectedFor(s, book));
  }

  function Negated(term: nat -> int): nat -> int { (k: nat) => -term(k) }

  lemma {:induction false} TotalNegated(n: nat, term: nat -> int)
    ensures Total(n, Negated(term)) == -Total(n, term)
  {
    if n > 0 { TotalNegated(n - 1, term); }
  }

  lemma {:induction false} SumNegated(rows: seq<Row>, f: Row -> int, g: Row -> int)
    requires forall r <- rows :: f(r) == -g(r)
    ensures Sum(rows, f) == -Sum(rows, g)
  {
    if rows != [] { SumNegated(rows[..|rows| - 1], f, g); }
  }

  lemma OneRefundTotal(s: State, book: Book, r: nat)
    requires RowsValid(s) && Refunds.RefundBooks(s) && r < |s.refunds|
    ensures Sum(s.ledger, InClassOf(RefundClass, book, r)) == -RefundedFor(s, book)(r)
  {
    assert Refunds.RefundRowsValid(s);
    var pot := Refunds.RefundPot(s.payments[s.refunds[r].payment]);
    assert Refunds.PaidExactly(s, r, pot);
    if book == pot.book {
      SumNegated(s.ledger, InClassOf(RefundClass, book, r), Refunds.PaidTo(r, pot));
    } else {
      OtherClassSumsZero(s.ledger, InClassOf(RefundClass, book, r));
    }
  }

  lemma RefundTotal(s: State, book: Book)
    requires RowsValid(s) && Refunds.RefundBooks(s)
    ensures Sum(s.ledger, InClass(RefundClass, book)) == -Total(|s.refunds|, RefundedFor(s, book))
  {
    GroupByRow(s.ledger, RefundClass, book, |s.refunds|);
    SumSame(s.ledger, InClass(RefundClass, book), InClassBelow(RefundClass, book, |s.refunds|));
    forall r: nat | r < |s.refunds|
      ensures PerRow(s.ledger, RefundClass, book)(r) == Negated(RefundedFor(s, book))(r)
    {
      OneRefundTotal(s, book, r);
    }
    TotalSame(|s.refunds|, PerRow(s.ledger, RefundClass, book), Negated(RefundedFor(s, book)));
    TotalNegated(|s.refunds|, RefundedFor(s, book));
  }

  lemma OneTransferTotal(s: State, terms: seq<Transfers.Terms>, book: Book, t: nat)
    requires RowsValid(s) && Transfers.AllBooked(s, terms) && t < |s.transfers|
    ensures Sum(s.ledger, InClassOf(TransferClass, book, t)) == -KeptBy(s, terms, book)(t)
  {
    if book == s.transfers[t].book {
      Transfers.MovesWhatItKeeps(s.transfers[t], Transfers.TallyOf(s.ledger, t), terms[t]);
      Transfers.TallyMoves(s.ledger, t);
      hide Sum, Transfers.TallyOf, Transfers.Kept, Transfers.Booked;
      SumSame(s.ledger, InClassOf(TransferClass, book, t), Transfers.MovedBy(t));
    } else {
      OtherClassSumsZero(s.ledger, InClassOf(TransferClass, book, t));
    }
  }

  lemma TransferTotal(s: State, terms: seq<Transfers.Terms>, book: Book)
    requires RowsValid(s) && Transfers.AllBooked(s, terms)
    ensures Sum(s.ledger, InClass(TransferClass, book)) == -Total(|s.transfers|, KeptBy(s, terms, book))
  {
    hide Transfers.Booked, Transfers.TallyOf, Transfers.Kept;
    GroupByRow(s.ledger, TransferClass, book, |s.transfers|);
    SumSame(s.ledger, InClass(TransferClass, book), InClassBelow(TransferClass, book, |s.transfers|));
    forall t: nat | t < |s.transfers|
      ensures PerRow(s.ledger, TransferClass, book)(t) == Negated(KeptBy(s, terms, book))(t)
    {
      OneTransferTotal(s, terms, book, t);
    }
    TotalSame(|s.transfers|, PerRow(s.ledger, TransferClass, book), Negated(KeptBy(s, terms, book)));
    TotalNegated(|s.transfers|, KeptBy(s, terms, book));
  }

  /** What all pots of a book hold is what the rows of the tables, and the terms of the transfers, say. */
  lemma BalanceSheet(s: State, terms: seq<Transfers.Terms>, book: Book)
    requires Sound(s, terms)
    ensures BookTotal(s.ledger, book) ==
            Total(|s.payments|, CollectedFor(s, book)) - Total(|s.refunds|, RefundedFor(s, book))
            - Total(|s.transfers|, KeptBy(s, terms, book)) + External(s, book)
  {
    BookByClass(s.ledger, book);
    ChargeTotal(s, book);
    RefundTotal(s, book);
    TransferTotal(s, terms, book);
  }

  lemma {:induction false} RunStaysSound(c: Config, s: State, terms: seq<Transfers.Terms>, ops: seq<Op>)
    requires Sound(s, terms)
    ensures Sound(Run(c, s, ops), Transfers.Notes(c, s, terms, ops))
    decreases ops
  {
    if ops != [] {
      StepStaysSound(c, s, terms, ops[0]);
      hide Sound;
      RunStaysSound(c, Step(c, s, ops[0]), Transfers.NoteStep(c, s, terms, ops[0]), ops[1..]);
    }
  }

  lemma StepStaysSound(c: Config, s: State, terms: seq<Transfers.Terms>, op: Op)
    requires Sound(s, terms)
    ensures Sound(Step(c, s, op), Transfers.NoteStep(c, s, terms, op))
  {
    StepKeepsLog(c, s, op);
    StepKeepsCharges(c, s, op);
    StepGrows(c, s, op);
    GrownKeepsRows(s, Step(c, s, op), ClassesOf(op));
    StepKeepsChargeRecord(c, s, op);
    StepKeepsFeesBalanced(c, s, op);
    Refunds.StepKeepsRefundBooks(c, s, op);
    Transfers.StepKeepsBooked(c, s, terms, op);
  }

  lemma EmptyIsSound()
    ensures Sound(EMPTY, [])
  {
    EmptyLogAgrees();
    Refunds.EmptyRefundBooks();
    Transfers.EmptyIsBooked();
  }

  /** Every run from empty tables, whatever its calls. */
  lemma MoneyIsConserved(c: Config, ops: seq<Op>, book: Book)
    ensures var s, terms := Run(c, EMPTY, ops), Transfers.Notes(c, EMPTY, [], ops);
            BookTotal(s.ledger, book) ==
            Total(|s.payments|, CollectedFor(s, book)) - Total(|s.refunds|, RefundedFor(s, book))
            - Total(|s.transfers|, KeptBy(s, terms, book)) + External(s, book)
  {
    EmptyIsSound();
    RunStaysSound(c, EMPTY, [], ops);
    BalanceSheet(Run(c, EMPTY, ops), Transfers.Notes(c, EMPTY, [], ops), book);
  }

  /** Where the metadata agrees whenever a transition releases, every transfer keeps what it was to keep. */
  lemma MoneyIsConservedAsPromised(c: Config, ops: seq<Op>, book: Book)
    requires Transfers.ReleasesAgree(c, EMPTY, [], ops)
    ensures var s, terms := Run(c, EMPTY, ops), Transfers.Notes(c, EMPTY, [], ops);
            BookTotal(s.ledger, book) ==
            Total(|s.payments|, CollectedFor(s, book)) - Total(|s.refunds|, RefundedFor(s, book))
            - Total(|s.transfers|, PromisedBy(s, terms, book)) + External(s, book)
  {
    MoneyIsConserved(c, ops, book);
    Transfers.EmptyIsBooked();
    Transfers.RunKeepsBooked(c, EMPTY, [], ops);
    Transfers.AgreedExactlyWhen(c, EMPTY, [], ops);
    var s, terms := Run(c, EMPTY, ops), Transfers.Notes(c, EMPTY, [], ops);
    forall t: nat | t < |s.transfers| ensures KeptBy(s, terms, book)(t) == PromisedBy(s, terms, book)(t) {
      assert terms[t].Agreed();
      Transfers.KeepsItsPromiseExactlyWhen(s.transfers[t], Transfers.TallyOf(s.ledger, t), terms[t]);
    }
    TotalSame(|s.transfers|, KeptBy(s, terms, book), PromisedBy(s, terms, book));
  }

  /* ---------------------------- without reversals ---------------------------- */

  /** The status the payment was created with, from the log. */
  function BornAs(s: State, i: nat): Option<Status> {
    var timeline := Timeline(s.events, PaymentId(i));
    if timeline == [] then None else timeline[0].current
  }

  predicate BornCollected(s: State, i: nat) {
    var born := BornAs(s, i);
    born.Some? && born.value.OfPayment? && Collected(born.value.payment)
  }

  predicate NoReversals(ops: seq<Op>) { forall op <- ops :: op.TransitionPayment? ==> !op.reversal }

  /** The log reports one settlement of a payment that became collected, and none of any other. */
  ghost predicate SettledOnce(s: State) {
    forall i :: 0 <= i < |s.payments| ==>
      && (BornCollected(s, i) ==> Collected(s.payments[i].status))
      && SettledTimes(s.events, i) == One(Collected(s.payments[i].status) && !BornCollected(s, i))
  }

  lemma {:induction false} TimelineGrows(events: seq<Event>, more: seq<Event>, id: Id)
    ensures Timeline(events + more, id) == Timeline(events, id) + Timeline(more, id)
  {
    if more == [] {
      assert events + more == events;
    } else {
      var n := |more| - 1;
      assert events + more == (events + more[..n]) + [more[n]];
      TimelineAppend(events + more[..n], more[n], id);
      TimelineAppend(more[..n], more[n], id);
      assert more == more[..n] + [more[n]];
      TimelineGrows(events, more[..n], id);
    }
  }

  lemma BirthStays(s: State, t: State, i: nat)
    requires LogAgrees(s) && i < |s.payments|
    requires |s.events| <= |t.events| && t.events[..|s.events|] == s.events
    ensures BornAs(t, i) == BornAs(s, i)
  {
    assert Agrees(s, PaymentId(i));
    assert t.events == s.events + t.events[|s.events|..];
    TimelineGrows(s.events, t.events[|s.events|..], PaymentId(i));
  }

  lemma OldPaymentSettledOnce(c: Config, s: State, op: Op, i: nat)
    requires LogAgrees(s) && SettledOnce(s) && i < |s.payments| && (op.TransitionPayment? ==> !op.reversal)
    ensures i < |Step(c, s, op).payments|
    ensures var t := Step(c, s, op);
            && (BornCollected(t, i) ==> Collected(t.payments[i].status))
            && SettledTimes(t.events, i) == One(Collected(t.payments[i].status) && !BornCollected(t, i))
  {
    var t := Step(c, s, op);
    StepOnPayment(c, s, op, i);
    StepGrows(c, s, op);
    BirthStays(s, t, i);
    SettlesWhenCollected(c, s, op, i);
    StepLogsSettlement(c, s, op, i);
    var before, after := s.payments[i].status, t.payments[i].status;
    if before != after { CollectedEntry(before, after); }
    hide Step, Try, Timeline, SettledTimes, Settles;
  }

  lemma NewPaymentSettledOnce(c: Config, s: State, op: Op)
    requires op.CreatePayment? && Try(c, s, op).Ok? && LogAgrees(s)
    ensures var t, i := Step(c, s, op), |s.payments|;
            && |t.payments| == i + 1 && (BornCollected(t, i) <==> Collected(t.payments[i].status))
            && SettledTimes(t.events, i) == 0
  {
    var t, i := Step(c, s, op), |s.payments|;
    assert Agrees(s, PaymentId(i));
    NoTimelineNoSettlement(s.events, i);
    StepLogsSettlement(c, s, op, i);
    TimelineAppend(s.events, t.events[|s.events|], PaymentId(i));
  }

  /** Without reversals the log counts a payment exactly when it is collected and was not created so. */
  lemma {:induction false} SettledOnceWithoutReversals(c: Config, s: State, ops: seq<Op>)
    requires LogAgrees(s) && SettledOnce(s) && NoReversals(ops)
    ensures SettledOnce(Run(c, s, ops))
    decreases ops
  {
    if ops != [] {
      var t := Step(c, s, ops[0]);
      StepKeepsLog(c, s, ops[0]);
      forall i | 0 <= i < |t.payments|
        ensures BornCollected(t, i) ==> Collected(t.payments[i].status)
        ensures SettledTimes(t.events, i) == One(Collected(t.payments[i].status) && !BornCollected(t, i))
      {
        if i < |s.payments| {
          OldPaymentSettledOnce(c, s, ops[0], i);
        } else {
          NewPayment(c, s, ops[0], i);
          NewPaymentSettledOnce(c, s, ops[0]);
        }
      }
      SettledOnceWithoutReversals(c, t, ops[1..]);
    }
  }
}
