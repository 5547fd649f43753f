/** The subscription runner: one subscription's rows updated in place by the handlers of its jobs. */
module Subscriptions {
  import opened Options
  import opened BillingStates
  import opened Recurrence
  import opened Billing

  class SubscriptionRunner {
    const terms: Terms
    var status: SubscriptionStatus
    var nextPaymentDate: Option<int>
    var currentPeriodStart: int
    var invoiceCount: nat
    var invoices: seq<Invoice>
    var charges: seq<Charge>
    var invoiceJobs: seq<Job>
    var chargeJobs: seq<Job>

    constructor (terms: Terms, status: SubscriptionStatus, startDate: int, firstPayment: Option<int>)
      ensures Rows() == Account(terms, status, firstPayment, startDate, 0, [], [], [], [])
    {
      this.terms, this.status := terms, status;
      nextPaymentDate, currentPeriodStart, invoiceCount := firstPayment, startDate, 0;
      invoices, charges, invoiceJobs, chargeJobs := [], [], [], [];
    }

    function Rows(): Account
      reads this
    {
      Account(terms, status, nextPaymentDate, currentPeriodStart, invoiceCount, invoices, charges,
              invoiceJobs, chargeJobs)
    }

    /** The handler ended as expected, and left the rows expected. */
    ghost predicate Gives(ok: bool, expected: Handled)
      reads this
    {
      ok == expected.Finished? && Rows() == expected.account
    }

    /* ---------------------------- the engine and the job table ---------------------------- */

    method CancelGroup()
      modifies this`invoiceJobs, this`chargeJobs
      ensures invoiceJobs == CancelQueued(old(invoiceJobs)) && chargeJobs == CancelQueued(old(chargeJobs))
    {
      for k := 0 to |invoiceJobs|
        invariant |invoiceJobs| == |old(invoiceJobs)| && chargeJobs == old(chargeJobs)
        invariant forall i :: k <= i < |invoiceJobs| ==> invoiceJobs[i] == old(invoiceJobs)[i]
        invariant forall i :: 0 <= i < k ==> invoiceJobs[i] == CancelQueued(old(invoiceJobs))[i]
      {
        if invoiceJobs[k].stage == Queued {
          invoiceJobs := invoiceJobs[k := invoiceJobs[k].(stage := Over)];
        }
      }
      for k := 0 to |chargeJobs|
        invariant |chargeJobs| == |old(chargeJobs)| && invoiceJobs == CancelQueued(old(invoiceJobs))
        invariant forall i :: k <= i < |chargeJobs| ==> chargeJobs[i] == old(chargeJobs)[i]
        invariant forall i :: 0 <= i < k ==> chargeJobs[i] == CancelQueued(old(chargeJobs))[i]
      {
        if chargeJobs[k].stage == Queued {
          chargeJobs := chargeJobs[k := chargeJobs[k].(stage := Over)];
        }
      }
    }

    method TransitionSubscription(to: SubscriptionStatus, date: Option<Option<int>>) returns (ok: bool)
      modifies this`status, this`nextPaymentDate, this`invoiceJobs, this`chargeJobs
      ensures Gives(ok, Move(old(Rows()), to, date))
    {
      if !SubscriptionMoves(status, to) { return false; }
      status := to;
      if date.Some? {
        nextPaymentDate := date.value;
      } else if to == Completed || to == Cancelled || to == NonRenewing {
        nextPaymentDate := None;
      }
      if nextPaymentDate == None { CancelGroup(); }
      return true;
    }

    method TransitionInvoice(i: nat, to: InvoiceStatus) returns (ok: bool)
      requires i < |invoices|
      modifies this`invoices
      ensures Gives(ok, MoveInvoice(old(Rows()), i, to))
      ensures |invoices| == |old(invoices)|
    {
      if !InvoiceMoves(invoices[i].status, to) { return false; }
      invoices := invoices[i := invoices[i].(status := to)];
      return true;
    }

    /* ---------------------------- the runner ---------------------------- */

    method FindInvoiceForPeriod(dueAt: int) returns (r: Option<nat>)
      ensures r == InvoiceForPeriod(invoices, dueAt)
    {
      for i := 0 to |invoices|
        invariant forall j :: 0 <= j < i ==> invoices[j].periodStart != dueAt
      {
        if invoices[i].periodStart == dueAt { return Some(i); }
      }
      return None;
    }

    method CompleteIfLimitReached() returns (stopped: bool, ok: bool)
      modifies this`status, this`nextPaymentDate, this`invoiceJobs, this`chargeJobs
      ensures stopped == old(LimitReached(Rows()))
      ensures if stopped then Gives(ok, Move(old(Rows()), Completed, None)) else ok && Rows() == old(Rows())
    {
      if terms.invoiceLimit <= 0 { return false, true; }
      if invoiceCount < terms.invoiceLimit { return false, true; }
      ok := TransitionSubscription(Completed, None);
      return true, ok;
    }

    /** The invoice of the upcoming period, for whatever its lines come to. */
    method RaiseInvoice(dueAt: int, amount: nat) returns (i: nat)
      modifies this`invoices, this`invoiceCount
      ensures Rows() == Raise(old(Rows()), dueAt, amount) && i == |old(invoices)|
    {
      var periodEnd := AddInterval(dueAt, terms.interval, terms.count);
      i := |invoices|;
      invoices := invoices + [Invoice(dueAt, periodEnd, amount, Pending)];
      invoiceCount := invoiceCount + 1;
    }

    method MoveToAttention() returns (ok: bool)
      modifies this`status, this`nextPaymentDate, this`invoiceJobs, this`chargeJobs
      ensures Gives(ok, ToAttention(old(Rows())))
    {
      if status == Attention { return true; }
      ok := TransitionSubscription(Attention, Some(nextPaymentDate));
    }

    method Schedule(dueAt: int, now: int)
      modifies this`invoiceJobs, this`chargeJobs
      ensures Rows() == ScheduleCycle(old(Rows()), dueAt, now)
    {
      var invoiceAt := dueAt - terms.leadMs;
      if invoiceAt > now {
        invoiceJobs := invoiceJobs + [Job(dueAt, invoiceAt, Queued)];
      }
      chargeJobs := chargeJobs + [Job(dueAt, if dueAt > now then dueAt else now, Queued)];
    }

    method Begin(now: int)
      modifies this`invoiceJobs, this`chargeJobs
      ensures Rows() == Start(old(Rows()), now)
    {
      if nextPaymentDate.Some? { Schedule(nextPaymentDate.value, now); }
    }

    method AdvanceToNextCycle(dueAt: int, now: int) returns (ok: bool)
      modifies this
      ensures Gives(ok, AdvanceCycle(old(Rows()), dueAt, now))
    {
      if !IsRenewable(status) { return true; }
      if terms.invoiceLimit > 0 && invoiceCount >= terms.invoiceLimit {
        ok := TransitionSubscription(Completed, None);
        return;
      }
      var next := AddInterval(dueAt, terms.interval, terms.count);
      nextPaymentDate, currentPeriodStart := Some(next), dueAt;
      Schedule(next, now);
      return true;
    }

    method HandleInvoiceJob(dueAt: int, amount: nat) returns (ok: bool)
      modifies this
      ensures Gives(ok, HandleInvoice(old(Rows()), dueAt, amount))
    {
      if !IsRenewable(status) { return true; }
      var existing := FindInvoiceForPeriod(dueAt);
      if existing.Some? { return true; }
      var stopped;
      stopped, ok := CompleteIfLimitReached();
      if stopped { return; }
      var i := RaiseInvoice(dueAt, amount);
    }

    method DebitInvoice(i: nat, dueAt: int, now: int, outcome: Outcome) returns (ok: bool)
      requires i < |invoices|
      modifies this
      ensures Gives(ok, Debit(old(Rows()), i, dueAt, now, outcome))
    {
      hide Move, ScheduleCycle, AdvanceCycle, ToAttention;
      if outcome == NoInstrument {
        ok := TransitionInvoice(i, Failed);
        if ok { ok := MoveToAttention(); }
        return;
      }
      if invoices[i].amount == 0 { return false; }
      charges := charges + [Charge(dueAt, now, invoices[i].amount, outcome == Settled)];
      if outcome == Settled {
        ok := TransitionInvoice(i, Success);
        if ok { ok := AdvanceToNextCycle(dueAt, now); }
        return;
      }
      ok := TransitionInvoice(i, Failed);
      if !ok { return; }
      ok := MoveToAttention();
      if ok { ok := AdvanceToNextCycle(dueAt, now); }
    }

    method HandleChargeJob(dueAt: int, now: int, amount: nat, outcome: Outcome) returns (ok: bool)
      modifies this
      ensures Gives(ok, HandleCharge(old(Rows()), dueAt, now, amount, outcome))
    {
      hide Move, Debit;
      if !IsRenewable(status) { return true; }
      if status == Trialing {
        ok := TransitionSubscription(Active, Some(nextPaymentDate));
        if !ok { return; }
      }
      var invoice := FindInvoiceForPeriod(dueAt);
      var i: nat;
      if invoice.Some? {
        i := invoice.value;
      } else {
        var stopped;
        stopped, ok := CompleteIfLimitReached();
        if stopped { return; }
        i := RaiseInvoice(dueAt, amount);
      }
      ok := DebitInvoice(i, dueAt, now, outcome);
    }
  }
}
