/** The tables the money engine reads and writes, and the folds over them. */
module Storage {
  import opened Options
  import opened StateMachine

  /** One set of books per provider and currency. */
  datatype Book = Book(provider: string, currency: string)

  /** A connected account, or the platform itself when absent. */
  type Owner = Option<nat>

  /** One owner's balance in one book. */
  datatype Pot = Pot(book: Book, owner: Owner)

  /** Rows are never deleted, so an id is the row's place in its table. */
  datatype Id = PaymentId(n: nat) | RefundId(n: nat) | TransferId(n: nat) | DisputeId(n: nat)

  datatype SettlementMode = Ordinary | Direct | Forwarded

  datatype Payment = Payment(
    book: Book, amount: int, status: PaymentStatus, amountRefunded: int,
    subaccount: Owner, mode: SettlementMode, platformFee: int, feeRefunded: int)

  datatype Refund = Refund(payment: nat, book: Book, amount: int, status: RefundStatus)

  /** The three metadata keys of a transfer that the engine itself reads back. */
  datatype TransferMeta = TransferMeta(
    fee: Option<int>, feeRefundable: Option<bool>, reserved: Option<bool>)
  {
    /** Object spread: a key the patch carries wins. */
    function Merge(patch: TransferMeta): TransferMeta {
      TransferMeta(
        if patch.fee.Some? then patch.fee else fee,
        if patch.feeRefundable.Some? then patch.feeRefundable else feeRefundable,
        if patch.reserved.Some? then patch.reserved else reserved)
    }

    predicate IsReserved() { reserved != Some(false) }

    function ReservedFee(): int {
      if fee.Some? && fee.value > 0 then fee.value else 0
    }

    function RefundableFee(): int {
      if feeRefundable == Some(false) then 0 else ReservedFee()
    }
  }

  const NO_META := TransferMeta(None, None, None)

  datatype Transfer = Transfer(
    book: Book, amount: int, status: TransferStatus, source: Owner, destination: Owner,
    sourcePayment: Option<nat>, forwarding: bool, amountReversed: int, meta: TransferMeta)

  datatype Dispute = Dispute(payment: nat, status: DisputeStatus, refundAmount: int, accepted: bool)

  /** Why a ledger row was written. `External` rows come from an adapter. */
  datatype Reason =
    | Charge | ApplicationFee | RefundPaid | TransferMade | TransferReversal
    | TransferReleased(to: TransferStatus) | FeeRefund | External(text: string)

  datatype Row = Row(pot: Pot, credit: bool, amount: int, reason: Reason, resource: Option<Id>) {
    function Signed(): int { if credit then amount else -amount }
  }

  datatype Event = Event(resource: Id, sequence: nat, previous: Option<Status>, current: Option<Status>)

  datatype State = State(
    payments: seq<Payment>, refunds: seq<Refund>, transfers: seq<Transfer>, disputes: seq<Dispute>,
    ledger: seq<Row>, events: seq<Event>, sequences: map<Id, nat>)
  {
    /** `nextSequence` and the append it numbers. */
    function Append(id: Id, previous: Option<Status>, current: Option<Status>): State {
      var n := if id in sequences then sequences[id] + 1 else 1;
      this.(events := events + [Event(id, n, previous, current)], sequences := sequences[id := n])
    }

    function InsertPayment(p: Payment): State {
      this.(payments := payments + [p]).Append(PaymentId(|payments|), None, Some(OfPayment(p.status)))
    }

    /** Update a payment row and log the status it had and the status it has. */
    function UpdatePayment(i: nat, p: Payment): State
      requires i < |payments|
    {
      this.(payments := payments[i := p])
      .Append(PaymentId(i), Some(OfPayment(payments[i].status)), Some(OfPayment(p.status)))
    }

    function InsertRefund(r: Refund): State {
      this.(refunds := refunds + [r]).Append(RefundId(|refunds|), None, Some(OfRefund(r.status)))
    }

    function UpdateRefund(i: nat, r: Refund): State
      requires i < |refunds|
    {
      this.(refunds := refunds[i := r])
      .Append(RefundId(i), Some(OfRefund(refunds[i].status)), Some(OfRefund(r.status)))
    }

    function InsertTransfer(t: Transfer): State {
      this.(transfers := transfers + [t]).Append(TransferId(|transfers|), None, Some(OfTransfer(t.status)))
    }

    function UpdateTransfer(i: nat, t: Transfer): State
      requires i < |transfers|
    {
      this.(transfers := transfers[i := t])
      .Append(TransferId(i), Some(OfTransfer(transfers[i].status)), Some(OfTransfer(t.status)))
    }

    function InsertDispute(d: Dispute): State {
      this.(disputes := disputes + [d]).Append(DisputeId(|disputes|), None, Some(OfDispute(d.status)))
    }

    function UpdateDispute(i: nat, d: Dispute): State
      requires i < |disputes|
    {
      this.(disputes := disputes[i := d])
      .Append(DisputeId(i), Some(OfDispute(disputes[i].status)), Some(OfDispute(d.status)))
    }

    function Post(rows: seq<Row>): State { this.(ledger := ledger + rows) }
  }

  const EMPTY := State([], [], [], [], [], [], map[])

  /* ---------------------------- folds ---------------------------- */

  function Sum<T>(rows: seq<T>, weight: T -> int): int {
    if rows == [] then 0 else Sum(rows[..|rows| - 1], weight) + weight(rows[|rows| - 1])
  }

  lemma SumOne<T>(rows: seq<T>, r: T, weight: T -> int)
    ensures Sum(rows + [r], weight) == Sum(rows, weight) + weight(r)
  {
    assert (rows + [r])[..|rows|] == rows;
  }

  lemma {:induction false} SumPost<T>(rows: seq<T>, more: seq<T>, weight: T -> int)
    ensures Sum(rows + more, weight) == Sum(rows, weight) + Sum(more, weight)
  {
    if more == [] {
      assert rows + more == rows;
    } else {
      var n := |more| - 1;
      assert rows + more == (rows + more[..n]) + [more[n]];
      SumOne(rows + more[..n], more[n], weight);
      SumPost(rows, more[..n], weight);
    }
  }

  lemma {:induction false} SumUpdate<T>(rows: seq<T>, i: nat, r: T, weight: T -> int)
    requires i < |rows|
    ensures Sum(rows[i := r], weight) == Sum(rows, weight) - weight(rows[i]) + weight(r)
  {
    var n := |rows| - 1;
    if i < n {
      assert rows[i := r][..n] == rows[..n][i := r];
      SumUpdate(rows[..n], i, r, weight);
    } else {
      assert rows[i := r][..n] == rows[..n];
    }
  }

  lemma SumPair<T>(a: T, b: T, weight: T -> int)
    ensures Sum([a], weight) == weight(a) && Sum([a, b], weight) == weight(a) + weight(b)
  {
    assert [a, b][..1] == [a] && [a][..0] == [];
  }

  function InPot(pot: Pot): Row -> int { (r: Row) => if r.pot == pot then r.Signed() else 0 }

  function InBook(book: Book): Row -> int { (r: Row) => if r.pot.book == book then r.Signed() else 0 }

  /** `ledger.net`: what one owner holds in one book. */
  function Net(rows: seq<Row>, pot: Pot): int { Sum(rows, InPot(pot)) }

  /** What all the owners of a book hold together. */
  function BookTotal(rows: seq<Row>, book: Book): int { Sum(rows, InBook(book)) }

  function CountedFor(payment: nat): Refund -> int {
    (r: Refund) => if r.payment == payment && r.status != RefundStatus.Failed then r.amount else 0
  }

  /** `refunds.totalRefunded`: every refund of the payment that has not failed. */
  function TotalRefunded(refunds: seq<Refund>, payment: nat): int { Sum(refunds, CountedFor(payment)) }
}
