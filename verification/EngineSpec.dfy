/** What each public method of the payment engine does to the tables, in one step. */
module EngineSpec {
  import opened Options
  import opened StateMachine
  import opened Storage

  datatype Error =
    | ValidationFailed | InvalidTransition | NotFound | RefundExceedsAmount
    | BalanceInsufficient | ConstraintFailed

  datatype Result<+T> = Ok(value: T) | Err(error: Error) {
    predicate IsFailure() { Err? }
    function PropagateFailure<U>(): Result<U>
      requires Err?
    { Err(error) }
    function Extract(): T
      requires Ok?
    { value }
  }

  /** Whether transfers are checked against the balance, and the platform's opening float. */
  datatype Config = Config(enforce: bool, opening: int)

  datatype TransferInput = TransferInput(
    book: Book, amount: int, status: TransferStatus, fee: Option<int>, feeRefundable: bool,
    source: Owner, destination: Owner, sourcePayment: Option<nat>,
    reserve: bool, toPlatform: bool, meta: TransferMeta)

  datatype Op =
    | CreatePayment(book: Book, amount: int, status: PaymentStatus, subaccount: Owner,
                    mode: SettlementMode, fee: int)
    | TransitionPayment(payment: nat, toPayment: PaymentStatus, reversal: bool, retry: bool)
    | CreateRefund(payment: nat, requested: Option<int>, refundStatus: RefundStatus)
    | TransitionRefund(refund: nat, toRefund: RefundStatus)
    | CreateTransfer(input: TransferInput)
    | TransitionTransfer(transfer: nat, toTransfer: TransferStatus, patch: TransferMeta)
    | UpdateTransferMetadata(transfer: nat, patch: TransferMeta)
    | ReverseTransfer(transfer: nat, requested: Option<int>)
    | RefundPlatformFee(payment: nat, requested: Option<int>)
    | CreateDispute(payment: nat, requested: Option<int>)
    | TransitionDispute(dispute: nat, toDispute: DisputeStatus)
    | ResolveDispute(dispute: nat, accepted: bool, requested: Option<int>)
    | CreditBalance(pot: Pot, amount: int, text: string, about: Option<Id>)
    | DebitBalance(pot: Pot, amount: int, text: string, about: Option<Id>)
    | ExchangeBalance(provider: string, from: string, fromAmount: int, to: string, toAmount: int,
                      owner: Owner, checkFunds: bool, text: string, about: Option<Id>)

  function Max0(x: int): int { if x > 0 then x else 0 }

  function Default(x: Option<int>, otherwise: int): int { if x.Some? then x.value else otherwise }

  /** The ledger accepts positive rows only; one bad row aborts the transaction. */
  predicate Postable(rows: seq<Row>) { forall r <- rows :: r.amount > 0 }

  function PostRows(s: State, rows: seq<Row>): Result<State> {
    if Postable(rows) then Ok(s.Post(rows)) else Err(ConstraintFailed)
  }

  /** What an owner can spend: the float belongs to the platform alone. */
  function Available(c: Config, s: State, pot: Pot): int {
    (if pot.owner.None? then c.opening else 0) + Net(s.ledger, pot)
  }

  /* ---------------------------------- payments ---------------------------------- */

  function CreatePaymentStep(s: State, book: Book, amount: int, status: PaymentStatus, subaccount: Owner,
                             mode: SettlementMode, fee: int): Result<State>
  {
    if amount <= 0 then Err(ValidationFailed) else
    Ok(s.InsertPayment(Payment(book, amount, status, 0, subaccount, mode, Max0(fee), 0)))
  }

  predicate IsDirect(p: Payment) { p.mode == Direct && p.subaccount.Some? }

  predicate IsForwarded(p: Payment) { p.mode == Forwarded && p.subaccount.Some? }

  /** The platform's cut of a direct charge. */
  function DirectFee(p: Payment): int { if p.platformFee < p.amount then p.platformFee else p.amount }

  /** What a forwarded charge passes on. */
  function ForwardedShare(p: Payment): int { Max0(p.amount - p.platformFee) }

  function ChargeRows(i: nat, p: Payment): seq<Row> {
    if IsDirect(p) then
      var share := Row(Pot(p.book, p.subaccount), true, p.amount - DirectFee(p), Charge, Some(PaymentId(i)));
      if DirectFee(p) > 0 then
        [share, Row(Pot(p.book, None), true, DirectFee(p), ApplicationFee, Some(PaymentId(i)))]
      else [share]
    else
      [Row(Pot(p.book, None), true, p.amount, Charge, Some(PaymentId(i)))]
  }

  function ForwardingTransfer(i: nat, p: Payment): Transfer {
    Transfer(p.book, ForwardedShare(p), TransferStatus.Successful, None, p.subaccount, Some(i), true, 0, NO_META)
  }

  function TransitionPaymentStep(s: State, i: nat, to: PaymentStatus, reversal: bool, retry: bool)
    : Result<State>
  {
    if i >= |s.payments| then Err(NotFound) else
    var p := s.payments[i];
    if !PaymentMoves(p.status, to, reversal, retry) then Err(InvalidTransition) else
    var moved := s.UpdatePayment(i, p.(status := to));
    if to != PaymentStatus.Successful then Ok(moved) else
    var charged :- PostRows(moved, ChargeRows(i, p));
    if IsForwarded(p) && ForwardedShare(p) > 0 then
      InsertReserved(charged, ForwardingTransfer(i, p), 0, false)
    else Ok(charged)
  }

  /* ---------------------------------- refunds ---------------------------------- */

  function CreateRefundStep(s: State, i: nat, requested: Option<int>, status: RefundStatus): (r: Result<State>)
    ensures r.Ok? ==> r.value.disputes == s.disputes
  {
    if i >= |s.payments| then Err(NotFound) else
    var p := s.payments[i];
    if p.status != PaymentStatus.Successful && p.status != PartiallyRefunded then Err(InvalidTransition) else
    var already := TotalRefunded(s.refunds, i);
    var amount := Default(requested, p.amount - already);
    if amount <= 0 then Err(ValidationFailed) else
    if amount > p.amount - already then Err(RefundExceedsAmount) else
    Ok(s.InsertRefund(Refund(i, p.book, amount, status)))
  }

  function RefundRow(r: nat, refund: Refund, p: Payment): Row {
    Row(Pot(refund.book, if p.mode == Direct then p.subaccount else None), false, refund.amount,
        RefundPaid, Some(RefundId(r)))
  }

  function TransitionRefundStep(s: State, r: nat, to: RefundStatus): (result: Result<State>)
    ensures result.Ok? ==> result.value.disputes == s.disputes
  {
    if r >= |s.refunds| then Err(NotFound) else
    var refund := s.refunds[r];
    if !RefundMoves(refund.status, to) then Err(InvalidTransition) else
    var moved := s.UpdateRefund(r, refund.(status := to));
    if to != RefundStatus.Successful then Ok(moved) else
    if refund.payment >= |s.payments| then Err(NotFound) else
    var p := s.payments[refund.payment];
    var total := TotalRefunded(moved.refunds, refund.payment);
    var next := RefundedStatus(p.amount, total);
    if !PaymentMoves(p.status, next, false, false) then Err(InvalidTransition) else
    PostRows(moved.UpdatePayment(refund.payment, p.(status := next, amountRefunded := total)),
             [RefundRow(r, refund, p)])
  }

  /* ---------------------------------- transfers ---------------------------------- */

  function ReserveRows(t: nat, transfer: Transfer, fee: int, toPlatform: bool): seq<Row> {
    var out := Row(Pot(transfer.book, transfer.source), false, transfer.amount + fee, TransferMade, Some(TransferId(t)));
    if transfer.destination.Some? || toPlatform then
      [out, Row(Pot(transfer.book, transfer.destination), true, transfer.amount, TransferMade, Some(TransferId(t)))]
    else [out]
  }

  /** Insert a transfer and hold its money, and credit the other side of an internal move. */
  function InsertReserved(s: State, transfer: Transfer, fee: int, toPlatform: bool): Result<State> {
    PostRows(s.InsertTransfer(transfer), ReserveRows(|s.transfers|, transfer, fee, toPlatform))
  }

  /** The caller's metadata under the keys the engine writes itself. */
  function CreationMeta(input: TransferInput): TransferMeta {
    var charged :=
      if input.fee.Some? && input.fee.value != 0 then
        input.meta.Merge(TransferMeta(Some(Max0(input.fee.value)), Some(input.feeRefundable), None))
      else input.meta;
    if input.reserve then charged else charged.Merge(TransferMeta(None, None, Some(false)))
  }

  function NewTransfer(input: TransferInput): Transfer {
    Transfer(input.book, input.amount, input.status, input.source, input.destination, input.sourcePayment,
             false, 0, CreationMeta(input))
  }

  function CreateTransferStep(c: Config, s: State, input: TransferInput): Result<State> {
    if input.amount <= 0 then Err(ValidationFailed) else
    var fee := Max0(Default(input.fee, 0));
    if c.enforce && input.reserve && input.amount + fee > Available(c, s, Pot(input.book, input.source))
    then Err(BalanceInsufficient) else
    if input.reserve then InsertReserved(s, NewTransfer(input), fee, input.toPlatform)
    else Ok(s.InsertTransfer(NewTransfer(input)))
  }

  predicate Releases(to: TransferStatus) {
    to in {TransferStatus.Failed, Reversed, TransferStatus.Cancelled}
  }

  function Outstanding(transfer: Transfer): int { Max0(transfer.amount - transfer.amountReversed) }

  /** What a transfer that did not happen gives back, and takes off the other side. */
  function ReleaseRows(t: nat, transfer: Transfer, to: TransferStatus): seq<Row> {
    var release := Outstanding(transfer) + transfer.meta.RefundableFee();
    if !Releases(to) || !transfer.meta.IsReserved() || release <= 0 then [] else
    var back := Row(Pot(transfer.book, transfer.source), true, release, TransferReleased(to), Some(TransferId(t)));
    if transfer.destination.Some? && Outstanding(transfer) > 0 then
      [back, Row(Pot(transfer.book, transfer.destination), false, Outstanding(transfer),
                 TransferReleased(to), Some(TransferId(t)))]
    else [back]
  }

  function TransitionTransferStep(s: State, t: nat, to: TransferStatus, patch: TransferMeta): Result<State> {
    if t >= |s.transfers| then Err(NotFound) else
    var transfer := s.transfers[t];
    if !TransferMoves(transfer.status, to) then Err(InvalidTransition) else
    var updated := transfer.(status := to, meta := transfer.meta.Merge(patch));
    PostRows(s.UpdateTransfer(t, updated), ReleaseRows(t, updated, to))
  }

  function UpdateTransferMetadataStep(s: State, t: nat, patch: TransferMeta): Result<State> {
    if t >= |s.transfers| then Err(NotFound) else
    var transfer := s.transfers[t];
    Ok(s.(transfers := s.transfers[t := transfer.(meta := transfer.meta.Merge(patch))]))
  }

  /** A debit and the matching credit, for two different owners. */
  function MoveRows(book: Book, amount: int, from: Owner, to: Owner, reason: Reason, about: Id): seq<Row> {
    [Row(Pot(book, from), false, amount, reason, Some(about)),
     Row(Pot(book, to), true, amount, reason, Some(about))]
  }

  function MoveBetween(s: State, book: Book, amount: int, from: Owner, to: Owner, reason: Reason, about: Id)
    : Result<State>
  {
    if from == to then Err(ValidationFailed) else
    PostRows(s, MoveRows(book, amount, from, to, reason, about))
  }

  function AfterReversal(transfer: Transfer, requested: int): Transfer {
    var reversed := transfer.amountReversed + requested;
    transfer.(amountReversed := reversed,
    status := if reversed >= transfer.amount then Reversed else transfer.status)
  }

  function ReverseTransferStep(c: Config, s: State, t: nat, amount: Option<int>): Result<State> {
    if t >= |s.transfers| then Err(NotFound) else
    var transfer := s.transfers[t];
    if transfer.destination.None? then Err(ValidationFailed) else
    if transfer.status == TransferStatus.Failed || transfer.status == TransferStatus.Cancelled
    then Err(InvalidTransition) else
    var remaining := transfer.amount - transfer.amountReversed;
    var requested := Default(amount, remaining);
    if requested <= 0 then Err(ValidationFailed) else
    if requested > remaining then Err(RefundExceedsAmount) else
    if c.enforce && requested > Net(s.ledger, Pot(transfer.book, transfer.destination))
    then Err(BalanceInsufficient) else
    MoveBetween(s.UpdateTransfer(t, AfterReversal(transfer, requested)), transfer.book, requested,
                transfer.destination, transfer.source, TransferReversal, TransferId(t))
  }

  /* ---------------------------------- fee refunds ---------------------------------- */

  /** The newest transfer among the `window` latest that was made for payment `i`. */
  function NewestFor(transfers: seq<Transfer>, i: nat, window: nat): (found: Option<nat>)
    ensures found.Some? ==> found.value < |transfers| && transfers[found.value].sourcePayment == Some(i)
  {
    if window == 0 || transfers == [] then None else
    var last := |transfers| - 1;
    if transfers[last].sourcePayment == Some(i) then Some(last)
    else NewestFor(transfers[..last], i, window - 1)
  }

  function FeeRefundShare(s: State, i: nat, p: Payment, requested: int): int {
    if p.mode != Forwarded then requested else
    var found := NewestFor(s.transfers, i, 500);
    if found.None? || s.transfers[found.value].amount <= 0 then requested else
    var forwarded := s.transfers[found.value];
    (requested * Outstanding(forwarded)) / forwarded.amount
  }

  function RefundPlatformFeeStep(s: State, i: nat, amount: Option<int>): Result<State> {
    if i >= |s.payments| then Err(NotFound) else
    var p := s.payments[i];
    if p.platformFee <= 0 || p.subaccount.None? then Err(ValidationFailed) else
    var remaining := p.platformFee - p.feeRefunded;
    var requested := Default(amount, remaining);
    if requested <= 0 then Err(ValidationFailed) else
    if requested > remaining then Err(RefundExceedsAmount) else
    var updated := p.(feeRefunded := p.feeRefunded + requested);
    var moved := s.UpdatePayment(i, updated);
    ReturnFee(moved, i, updated, FeeRefundShare(s, i, updated, requested))
  }

  /** The part of a fee refund that moves between balances, if any does. */
  function ReturnFee(s: State, i: nat, p: Payment, movable: int): Result<State> {
    if movable > 0 then MoveBetween(s, p.book, movable, None, p.subaccount, FeeRefund, PaymentId(i)) else Ok(s)
  }

  /* ---------------------------------- disputes ---------------------------------- */

  function CreateDisputeStep(s: State, i: nat, requested: Option<int>): Result<State> {
    if i >= |s.payments| then Err(NotFound) else
    var p := s.payments[i];
    if !Collected(p.status) then Err(InvalidTransition) else
    var amount := Default(requested, p.amount);
    if amount > p.amount then Err(ValidationFailed) else
    if amount < 0 then Err(ConstraintFailed) else
    Ok(s.InsertDispute(Dispute(i, AwaitingMerchantFeedback, amount, false)))
  }

  function TransitionDisputeStep(s: State, d: nat, to: DisputeStatus): Result<State> {
    if d >= |s.disputes| then Err(NotFound) else
    if !DisputeMoves(s.disputes[d].status, to) then Err(InvalidTransition) else
    Ok(s.UpdateDispute(d, s.disputes[d].(status := to)))
  }

  /** The refund a conceded dispute raises and settles at once. */
  function ConcedeRefund(s: State, i: nat, amount: int): (r: Result<State>)
    ensures r.Ok? ==> r.value.disputes == s.disputes
  {
    var created :- CreateRefundStep(s, i, Some(amount), RefundStatus.Pending);
    TransitionRefundStep(created, |s.refunds|, RefundStatus.Successful)
  }

  function CloseDispute(s: State, d: nat, accepted: bool, amount: int): State
    requires d < |s.disputes|
  {
    s.UpdateDispute(d, s.disputes[d].(status := Resolved, accepted := accepted, refundAmount := amount))
  }

  function ResolveDisputeStep(s: State, d: nat, accepted: bool, requested: Option<int>): Result<State> {
    if d >= |s.disputes| then Err(NotFound) else
    var dispute := s.disputes[d];
    if !DisputeMoves(dispute.status, Resolved) then Err(InvalidTransition) else
    var amount := Default(requested, dispute.refundAmount);
    var refunded :- if accepted && amount > 0 then ConcedeRefund(s, dispute.payment, amount) else Ok(s);
    if requested.Some? && amount < 0 then Err(ConstraintFailed) else
    Ok(CloseDispute(refunded, d, accepted, amount))
  }

  /* ---------------------------------- balances ---------------------------------- */

  function BookEntryStep(s: State, credit: bool, pot: Pot, amount: int, text: string, about: Option<Id>)
    : Result<State>
  {
    if amount <= 0 then Err(ValidationFailed) else
    Ok(s.Post([Row(pot, credit, amount, External(text), about)]))
  }

  function ExchangeBalanceStep(c: Config, s: State, provider: string, from: string, fromAmount: int,
                               to: string, toAmount: int, owner: Owner, checkFunds: bool,
                               text: string, about: Option<Id>): Result<State>
  {
    if fromAmount <= 0 || toAmount <= 0 then Err(ValidationFailed) else
    if from == to then Err(ValidationFailed) else
    var source := Pot(Book(provider, from), owner);
    if checkFunds && c.enforce && Available(c, s, source) < fromAmount then Err(BalanceInsufficient) else
    Ok(s.Post([Row(source, false, fromAmount, External(text), about),
               Row(Pot(Book(provider, to), owner), true, toAmount, External(text), about)]))
  }

  /* ---------------------------------- runs ---------------------------------- */

  function Try(c: Config, s: State, op: Op): Result<State> {
    match op
    case CreatePayment(book, amount, status, subaccount, mode, fee) =>
      CreatePaymentStep(s, book, amount, status, subaccount, mode, fee)
    case TransitionPayment(i, to, reversal, retry) => TransitionPaymentStep(s, i, to, reversal, retry)
    case CreateRefund(i, requested, status) => CreateRefundStep(s, i, requested, status)
    case TransitionRefund(r, to) => TransitionRefundStep(s, r, to)
    case CreateTransfer(input) => CreateTransferStep(c, s, input)
    case TransitionTransfer(t, to, patch) => TransitionTransferStep(s, t, to, patch)
    case UpdateTransferMetadata(t, patch) => UpdateTransferMetadataStep(s, t, patch)
    case ReverseTransfer(t, requested) => ReverseTransferStep(c, s, t, requested)
    case RefundPlatformFee(i, requested) => RefundPlatformFeeStep(s, i, requested)
    case CreateDispute(i, requested) => CreateDisputeStep(s, i, requested)
    case TransitionDispute(d, to) => TransitionDisputeStep(s, d, to)
    case ResolveDispute(d, accepted, requested) => ResolveDisputeStep(s, d, accepted, requested)
    case CreditBalance(pot, amount, text, about) => BookEntryStep(s, true, pot, amount, text, about)
    case DebitBalance(pot, amount, text, about) => BookEntryStep(s, false, pot, amount, text, about)
    case ExchangeBalance(provider, from, fromAmount, to, toAmount, owner, checkFunds, text, about) =>
      ExchangeBalanceStep(c, s, provider, from, fromAmount, to, toAmount, owner, checkFunds, text, about)
  }

  /** A refused call is rolled back. */
  function Step(c: Config, s: State, op: Op): State {
    var r := Try(c, s, op);
    if r.Ok? then r.value else s
  }

  function Run(c: Config, s: State, ops: seq<Op>): State
    decreases ops
  {
    if ops == [] then s else Run(c, Step(c, s, ops[0]), ops[1..])
  }
}
