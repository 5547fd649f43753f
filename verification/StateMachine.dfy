/** The transition tables of the money objects, and the predicates that read them. */
module StateMachine {

  datatype PaymentStatus =
    | Created | Pending | Processing | RequiresAction | Authorized | Successful
    | Failed | Cancelled | Expired | Refunded | PartiallyRefunded

  datatype RefundStatus = Pending | Processing | NeedsAttention | Successful | Failed

  datatype TransferStatus =
    | Created | Pending | Processing | Successful | Failed | Cancelled | Reversed

  datatype DisputeStatus =
    | AwaitingMerchantFeedback | AwaitingBankFeedback | Pending | Resolved

  /** The status of any of the four objects, as an event records it. */
  datatype Status =
    | OfPayment(payment: PaymentStatus)
    | OfRefund(refund: RefundStatus)
    | OfTransfer(transfer: TransferStatus)
    | OfDispute(dispute: DisputeStatus)

  function PaymentTargets(from: PaymentStatus): set<PaymentStatus> {
    match from
    case Created => {PaymentStatus.Pending, PaymentStatus.Processing, RequiresAction,
                     PaymentStatus.Failed, PaymentStatus.Cancelled, Expired}
    case Pending => {PaymentStatus.Processing, RequiresAction, Authorized, PaymentStatus.Successful,
                     PaymentStatus.Failed, PaymentStatus.Cancelled, Expired}
    case Processing => {RequiresAction, Authorized, PaymentStatus.Successful, PaymentStatus.Failed, Expired}
    case RequiresAction => {PaymentStatus.Processing, Authorized, PaymentStatus.Successful,
                            PaymentStatus.Failed, PaymentStatus.Cancelled, Expired}
    case Authorized => {PaymentStatus.Processing, PaymentStatus.Successful, PaymentStatus.Failed,
                        PaymentStatus.Cancelled, Expired}
    case Successful => {PartiallyRefunded, Refunded}
    case PartiallyRefunded => {PartiallyRefunded, Refunded}
    case Failed => {}
    case Cancelled => {}
    case Expired => {}
    case Refunded => {}
  }

  function RefundTargets(from: RefundStatus): set<RefundStatus> {
    match from
    case Pending => {RefundStatus.Processing, NeedsAttention, RefundStatus.Successful, RefundStatus.Failed}
    case Processing => {NeedsAttention, RefundStatus.Successful, RefundStatus.Failed}
    case NeedsAttention => {RefundStatus.Processing, RefundStatus.Successful, RefundStatus.Failed}
    case Successful => {}
    case Failed => {}
  }

  function TransferTargets(from: TransferStatus): set<TransferStatus> {
    match from
    case Created => {TransferStatus.Pending, TransferStatus.Processing, TransferStatus.Failed,
                     TransferStatus.Cancelled}
    case Pending => {TransferStatus.Processing, TransferStatus.Successful, TransferStatus.Failed,
                     TransferStatus.Cancelled}
    case Processing => {TransferStatus.Successful, TransferStatus.Failed, Reversed}
    case Successful => {Reversed}
    case Failed => {}
    case Cancelled => {}
    case Reversed => {}
  }

  function DisputeTargets(from: DisputeStatus): set<DisputeStatus> {
    match from
    case AwaitingMerchantFeedback => {AwaitingBankFeedback, DisputeStatus.Pending, Resolved}
    case AwaitingBankFeedback => {DisputeStatus.Pending, Resolved}
    case Pending => {AwaitingBankFeedback, Resolved}
    case Resolved => {}
  }

  predicate IsTerminalPayment(status: PaymentStatus) {
    status in {PaymentStatus.Failed, PaymentStatus.Cancelled, Expired, Refunded}
  }

  /** Where a retried payment may resume from `failed`. */
  predicate IsRetryTarget(status: PaymentStatus) {
    status in {PaymentStatus.Pending, PaymentStatus.Processing, RequiresAction}
  }

  /** `assertPaymentTransition` returns, rather than throws. */
  predicate PaymentMoves(from: PaymentStatus, to: PaymentStatus, reversal: bool, retry: bool) {
    && from != to
    && (|| to in PaymentTargets(from)
        || (reversal && IsTerminalPayment(from))
        || (retry && from == PaymentStatus.Failed && IsRetryTarget(to)))
  }

  predicate RefundMoves(from: RefundStatus, to: RefundStatus) {
    from != to && to in RefundTargets(from)
  }

  predicate TransferMoves(from: TransferStatus, to: TransferStatus) {
    from != to && to in TransferTargets(from)
  }

  predicate DisputeMoves(from: DisputeStatus, to: DisputeStatus) {
    from != to && to in DisputeTargets(from)
  }

  function RefundedStatus(amount: int, refunded: int): PaymentStatus {
    if refunded >= amount then Refunded else PartiallyRefunded
  }

  /** The payment's money is, or has been, in a balance. */
  predicate Collected(status: PaymentStatus) {
    status in {PaymentStatus.Successful, PartiallyRefunded, Refunded}
  }

  /* ---------------------------- the tables, read by where they lead ---------------------------- */

  /** Nothing has been collected, and nothing has ended. */
  predicate Open(status: PaymentStatus) {
    status in {PaymentStatus.Created, PaymentStatus.Pending, PaymentStatus.Processing, RequiresAction, Authorized}
  }

  /**
   * An open payment may fail or expire at any time, be cancelled unless it is being processed, and be collected once it is
   * past its creation; it never goes back to having been created, and only a created one becomes pending. A collected one
   * is refunded, in part or in full, and nothing else. A reversal lifts an ended payment anywhere, a retry a failed one
   * back into flight.
   */
  lemma PaymentMovesExactlyTo(from: PaymentStatus, to: PaymentStatus, reversal: bool, retry: bool)
    ensures PaymentMoves(from, to, reversal, retry) <==>
            || (reversal && from != to && from in {PaymentStatus.Failed, PaymentStatus.Cancelled, Expired, Refunded})
            || (retry && from == PaymentStatus.Failed && to in {PaymentStatus.Pending, PaymentStatus.Processing, RequiresAction})
            || (match to
                case Created => false
                case Pending => from == PaymentStatus.Created
                case Processing => Open(from) && from != PaymentStatus.Processing
                case RequiresAction => Open(from) && from != RequiresAction && from != Authorized
                case Authorized => Open(from) && from != Authorized && from != PaymentStatus.Created
                case Successful => Open(from) && from != PaymentStatus.Created
                case Failed => Open(from)
                case Cancelled => Open(from) && from != PaymentStatus.Processing
                case Expired => Open(from)
                case PartiallyRefunded => from == PaymentStatus.Successful
                case Refunded => from == PaymentStatus.Successful || from == PartiallyRefunded)
  {
  }

  /** A refund settles or fails from wherever it is open, and stops for attention and resumes as often as it must. */
  lemma RefundMovesExactlyTo(from: RefundStatus, to: RefundStatus)
    ensures RefundMoves(from, to) <==>
            && from != RefundStatus.Successful && from != RefundStatus.Failed
            && from != to && to != RefundStatus.Pending
  {
  }

  /** A transfer can be called off only until it is processed, and marked reversed only from then on. */
  lemma TransferMovesExactlyTo(from: TransferStatus, to: TransferStatus)
    ensures TransferMoves(from, to) <==>
            match to
            case Created => false
            case Pending => from == TransferStatus.Created
            case Processing => from == TransferStatus.Created || from == TransferStatus.Pending
            case Successful => from == TransferStatus.Pending || from == TransferStatus.Processing
            case Failed => from in {TransferStatus.Created, TransferStatus.Pending, TransferStatus.Processing}
            case Cancelled => from == TransferStatus.Created || from == TransferStatus.Pending
            case Reversed => from == TransferStatus.Processing || from == TransferStatus.Successful
  {
  }

  /** A dispute can always be resolved, once, and never asks the merchant twice. */
  lemma DisputeMovesExactlyTo(from: DisputeStatus, to: DisputeStatus)
    ensures DisputeMoves(from, to) <==> from != Resolved && from != to && to != AwaitingMerchantFeedback
  {
  }

  lemma RefundedExactlyWhenAll(amount: int, refunded: int)
    ensures RefundedStatus(amount, refunded) == Refunded <==> refunded >= amount
    ensures RefundedStatus(amount, refunded) == PartiallyRefunded <==> refunded < amount
  {
  }
}
