/** The transition tables of subscriptions and invoices. */
module BillingStates {

  datatype SubscriptionStatus = Trialing | Active | NonRenewing | Attention | Completed | Cancelled

  datatype InvoiceStatus = Draft | Pending | Success | Failed | Void | Uncollectible

  function SubscriptionTargets(from: SubscriptionStatus): set<SubscriptionStatus> {
    match from
    case Trialing => {Active, NonRenewing, Cancelled, Completed}
    case Active => {NonRenewing, Attention, Completed, Cancelled}
    case NonRenewing => {Completed, Cancelled, Active}
    case Attention => {Active, NonRenewing, Completed, Cancelled}
    case Completed => {}
    case Cancelled => {}
  }

  function InvoiceTargets(from: InvoiceStatus): set<InvoiceStatus> {
    match from
    case Draft => {Pending, Void}
    case Pending => {Success, Failed, Void, Uncollectible}
    case Failed => {Success, Pending, Void, Uncollectible}
    case Uncollectible => {Success, Void}
    case Success => {}
    case Void => {}
  }

  predicate SubscriptionMoves(from: SubscriptionStatus, to: SubscriptionStatus) {
    from != to && to in SubscriptionTargets(from)
  }

  predicate InvoiceMoves(from: InvoiceStatus, to: InvoiceStatus) {
    from != to && to in InvoiceTargets(from)
  }

  predicate IsRenewable(status: SubscriptionStatus) {
    status == Active || status == Attention || status == Trialing
  }

  /** A subscription that has ended stays ended; only an active one can fall into attention, a trial never does. */
  lemma SubscriptionMovesExactlyTo(from: SubscriptionStatus, to: SubscriptionStatus)
    ensures SubscriptionMoves(from, to) <==>
            && from != Completed && from != Cancelled && from != to
            && match to
               case Trialing => false
               case Active => true
               case NonRenewing => true
               case Attention => from == Active
               case Completed => true
               case Cancelled => true
  {
  }

  /** An invoice is finalized from a draft or after a failed attempt, can be paid late and written off only once it is
      owed, and can be voided until it is paid. */
  lemma InvoiceMovesExactlyTo(from: InvoiceStatus, to: InvoiceStatus)
    ensures InvoiceMoves(from, to) <==>
            match to
            case Draft => false
            case Pending => from == Draft || from == Failed
            case Success => from == Pending || from == Failed || from == Uncollectible
            case Failed => from == Pending
            case Void => from != Success && from != Void
            case Uncollectible => from == Pending || from == Failed
  {
  }
}
