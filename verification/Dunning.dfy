/** What one charge leaves behind, however it went, and what stopping a subscription leaves. */
module Dunning {
  import opened Options
  import opened BillingStates
  import opened Recurrence
  import opened Billing

  /** The statuses in which a subscription goes on billing. */
  lemma RenewsUntilStopped(status: SubscriptionStatus)
    ensures IsRenewable(status) <==> status != NonRenewing && status != Completed && status != Cancelled
  {
  }

  /** The next cycle is open: from the date charged to one period on, with a charge job for then. */
  predicate OpenedNext(was: Account, c: Account, due: int, now: int) {
    var next := Next(due, was.terms.interval, was.terms.count);
    && c.nextPaymentDate == Some(next) && c.currentPeriodStart == due
    && |c.chargeJobs| == |was.chargeJobs| + 1
    && (was.nextPaymentDate.Some? ==> c.chargeJobs[..|was.chargeJobs|] == was.chargeJobs)
    && (var job := c.chargeJobs[|was.chargeJobs|];
        job.dueAt == next && job.stage == Queued && job.runAt >= next && job.runAt >= now && job.runAt in {next, now})
  }

  /** Nothing was charged, and nothing more is scheduled. */
  predicate LeftUncharged(was: Account, c: Account, i: nat, invoice: InvoiceStatus, status: SubscriptionStatus)
    requires i < |c.invoices|
  {
    && c.charges == was.charges && c.invoices[i].status == invoice && c.status == status
    && c.nextPaymentDate == was.nextPaymentDate && |c.chargeJobs| == |was.chargeJobs|
    && (was.nextPaymentDate.Some? ==> c.chargeJobs == was.chargeJobs && c.invoiceJobs == was.invoiceJobs)
  }

  /** The charge of the period that starts at `due`, for `owed`, went as it did, and this is what it left. */
  predicate Left(was: Account, c: Account, i: nat, due: int, now: int, owed: nat, outcome: Outcome) {
    var standing := if was.status == Attention then Attention else Active;
    && i < |c.invoices| && c.invoices[i].amount == owed && c.invoices[i].periodStart == due
    && (forall k: nat :: k < |was.invoices| && k != i && k < |c.invoices| ==> c.invoices[k] == was.invoices[k])
    && if outcome == NoInstrument then LeftUncharged(was, c, i, Failed, Attention)
       else if owed == 0 then LeftUncharged(was, c, i, Pending, standing)
       else
         && c.charges == was.charges + [Charge(due, now, owed, outcome == Settled)]
         && c.invoices[i].status == (if outcome == Settled then Success else Failed)
         && if was.terms.invoiceLimit > 0 && c.invoiceCount >= was.terms.invoiceLimit
            then c.status == Completed && c.nextPaymentDate == None && |c.chargeJobs| == |was.chargeJobs|
            else c.status == (if outcome == Declined then Attention else standing) && OpenedNext(was, c, due, now)
  }

  lemma DebitMade(a: Account, i: nat, due: int, now: int, outcome: Outcome)
    requires i < |a.invoices| && a.invoices[i].status == Pending && a.invoices[i].amount > 0 && outcome != NoInstrument
    requires a.status == Active || a.status == Attention
    ensures var c, owed := Debit(a, i, due, now, outcome).account, a.invoices[i].amount;
            && c.charges == a.charges + [Charge(due, now, owed, outcome == Settled)]
            && c.invoices == a.invoices[i := a.invoices[i].(status := if outcome == Settled then Success else Failed)]
            && c.invoiceCount == a.invoiceCount
            && if a.terms.invoiceLimit > 0 && a.invoiceCount >= a.terms.invoiceLimit
               then c.status == Completed && c.nextPaymentDate == None && |c.chargeJobs| == |a.chargeJobs|
               else c.status == (if outcome == Declined then Attention else a.status) && OpenedNext(a, c, due, now)
  {
    hide Next, CancelQueued;
  }

  lemma DebitLeaves(a: Account, i: nat, due: int, now: int, outcome: Outcome)
    requires i < |a.invoices| && a.invoices[i].status == Pending && a.invoices[i].periodStart == due
    requires a.status == Active || a.status == Attention
    ensures Left(a, Debit(a, i, due, now, outcome).account, i, due, now, a.invoices[i].amount, outcome)
  {
    hide Next, CancelQueued, Max;
    if outcome != NoInstrument && a.invoices[i].amount > 0 {
      hide LeftUncharged;
      DebitMade(a, i, due, now, outcome);
    }
  }

  lemma LeftFromRaised(a: Account, due: int, amount: nat, c: Account, now: int, outcome: Outcome)
    requires Left(Raise(a, due, amount), c, |a.invoices|, due, now, amount, outcome)
    ensures Left(a, c, |a.invoices|, due, now, amount, outcome)
  {
    hide PeriodEnd, Next;
    assert forall k: nat :: k < |a.invoices| ==> Raise(a, due, amount).invoices[k] == a.invoices[k];
  }

  lemma BillLeaves(a: Account, i: nat, due: int, now: int, amount: nat, outcome: Outcome)
    requires a.status == Active || a.status == Attention
    requires if i < |a.invoices|
             then InvoiceForPeriod(a.invoices, due) == Some(i) && a.invoices[i].status == Pending
             else i == |a.invoices| && InvoiceForPeriod(a.invoices, due).None? && !LimitReached(a)
    ensures Left(a, Bill(a, due, now, amount, outcome).account, i, due, now,
                 if i < |a.invoices| then a.invoices[i].amount else amount, outcome)
  {
    hide Debit, Left, PeriodEnd;
    if i < |a.invoices| {
      DebitLeaves(a, i, due, now, outcome);
    } else {
      DebitLeaves(Raise(a, due, amount), i, due, now, outcome);
      LeftFromRaised(a, due, amount, Debit(Raise(a, due, amount), i, due, now, outcome).account, now, outcome);
    }
  }

  lemma LeftFromTrial(a: Account, active: Account, c: Account, i: nat, due: int, now: int, owed: nat, outcome: Outcome)
    requires a.status != Attention && active.status != Attention && active == a.(status := active.status)
    requires Left(active, c, i, due, now, owed, outcome)
    ensures Left(a, c, i, due, now, owed, outcome)
  {
    hide Next;
  }

  lemma ChargeLeaves(a: Account, i: nat, due: int, now: int, amount: nat, outcome: Outcome)
    requires a.status in {Active, Attention, Trialing} && (a.status == Trialing ==> a.nextPaymentDate.Some?)
    requires if i < |a.invoices|
             then InvoiceForPeriod(a.invoices, due) == Some(i) && a.invoices[i].status == Pending
             else i == |a.invoices| && InvoiceForPeriod(a.invoices, due).None? && !LimitReached(a)
    ensures Left(a, HandleCharge(a, due, now, amount, outcome).account, i, due, now,
                 if i < |a.invoices| then a.invoices[i].amount else amount, outcome)
  {
    hide Bill, Left, InvoiceForPeriod;
    if a.status == Trialing {
      var active := a.(status := Active);
      assert Move(a, Active, Some(a.nextPaymentDate)) == Finished(active);
      BillLeaves(active, i, due, now, amount, outcome);
      LeftFromTrial(a, active, Bill(active, due, now, amount, outcome).account, i, due, now,
                    if i < |a.invoices| then a.invoices[i].amount else amount, outcome);
    } else {
      BillLeaves(a, i, due, now, amount, outcome);
    }
  }

  /** A trial always has a date, whatever has happened around it. */
  predicate Dated(a: Account) { a.status == Trialing ==> a.nextPaymentDate.Some? }

  lemma BillingNeverTrials(a: Account, due: int, now: int, amount: nat, outcome: Outcome)
    requires a.status != Trialing
    ensures Bill(a, due, now, amount, outcome).account.status != Trialing
  {
    hide PeriodEnd, CancelQueued, Max;
  }

  lemma ChargingKeepsDated(a: Account, due: int, now: int, amount: nat, outcome: Outcome)
    requires Dated(a)
    ensures Dated(HandleCharge(a, due, now, amount, outcome).account)
  {
    hide Bill, CancelQueued;
    if IsRenewable(a.status) {
      var billed := if a.status == Trialing then Move(a, Active, Some(a.nextPaymentDate)).account else a;
      BillingNeverTrials(billed, due, now, amount, outcome);
    }
  }

  lemma TakeKeepsDated(a: Account, step: Step)
    requires Dated(a)
    ensures Dated(Take(a, step))
  {
    hide HandleCharge, PeriodEnd, InvoiceForPeriod, CancelQueued;
    if step.RunChargeJob? && Has(a.chargeJobs, step.job, InHand) {
      var job := a.chargeJobs[step.job];
      ChargingKeepsDated(TakenUp(a, step.job), job.dueAt, job.runAt, step.amount, step.outcome);
    }
  }

  lemma {:induction false} RunsStayDated(a: Account, now: int, steps: seq<Step>)
    requires IsNew(a)
    ensures Dated(Follow(Start(a, now), steps))
  {
    hide Take, Dated;
    if steps == [] {
      assert Dated(Start(a, now)) by { StartsDated(a, now); }
    } else {
      RunsStayDated(a, now, steps[..|steps| - 1]);
      TakeKeepsDated(Follow(Start(a, now), steps[..|steps| - 1]), steps[|steps| - 1]);
    }
  }

  lemma StartsDated(a: Account, now: int)
    requires IsNew(a)
    ensures Dated(Start(a, now))
  {
  }

  lemma NewestIsThere(b: Account, i: nat, first: int, began: int)
    requires Sound(b, first, began) && NewestIsOwed(b) && Has(b.chargeJobs, i, InHand)
    ensures var a, due := TakenUp(b, i), b.chargeJobs[i].dueAt;
            if i < |a.invoices|
            then InvoiceForPeriod(a.invoices, due) == Some(i) && a.invoices[i].status == Pending
            else i == |a.invoices| && InvoiceForPeriod(a.invoices, due).None? && !LimitReached(a)
  {
    var a := TakenUp(b, i);
    TakenUpIsCharging(b, i, first, began);
    hide Sound, JobsInOrder, Due, InvoiceForPeriod, ChargesInOrder, WindowIsAPeriod, NewestIsOwed;
    SoundCounts(a, first, began);
    PeriodIsFound(a, first, i);
  }

  /**
   * In every run: a renewing subscription's charge is for the invoice of its period, raised by then if it was not, and the
   * invoice, the subscription and the schedule show how it went. Without an instrument it is the end of the chain, with
   * the invoice failed and the subscription in need of attention; a charge that settles or is declined opens the next
   * period, or completes the subscription at its limit.
   */
  lemma EveryChargeLeaves(a: Account, now: int, steps: seq<Step>, i: nat, amount: nat, outcome: Outcome)
    requires IsNew(a) && Has(Follow(Start(a, now), steps).chargeJobs, i, InHand)
    requires Follow(Start(a, now), steps).status in {Active, Attention, Trialing}
    ensures var b := Follow(Start(a, now), steps);
            var job := b.chargeJobs[i];
            Left(TakenUp(b, i), Take(b, RunChargeJob(i, amount, outcome)), i, job.dueAt, job.runAt,
                 if i < |b.invoices| then b.invoices[i].amount else amount, outcome)
  {
    hide Start, Follow, Sound, NewestIsOwed, Left, HandleCharge, InvoiceForPeriod;
    var b, first := Follow(Start(a, now), steps), a.nextPaymentDate.value;
    RunsStaySound(a, now, steps);
    NewestStaysOwed(a, now, steps);
    RunsStayDated(a, now, steps);
    NewestIsThere(b, i, first, now);
    var job := b.chargeJobs[i];
    ChargeLeaves(TakenUp(b, i), i, job.dueAt, job.runAt, amount, outcome);
  }

  /** An invoice job raises the invoice of its period once, ahead of the charge, or completes the subscription whose limit
      is used up; for one that does not renew it does nothing. */
  lemma InvoiceJobLeaves(a: Account, due: int, amount: nat)
    ensures var c := HandleInvoice(a, due, amount).account;
            if a.status in {NonRenewing, Completed, Cancelled} || (exists i :: 0 <= i < |a.invoices| && a.invoices[i].periodStart == due)
            then c == a
            else if a.terms.invoiceLimit > 0 && a.invoiceCount >= a.terms.invoiceLimit then
              c.invoices == a.invoices && c.status == Completed && c.nextPaymentDate == None
            else
              && c.invoices == a.invoices + [Invoice(due, Next(due, a.terms.interval, a.terms.count), amount, Pending)]
              && c.invoiceCount == a.invoiceCount + 1 && c.status == a.status && c.charges == a.charges
              && c.chargeJobs == a.chargeJobs && c.invoiceJobs == a.invoiceJobs && c.nextPaymentDate == a.nextPaymentDate
  {
    hide Next, CancelQueued;
    var found := InvoiceForPeriod(a.invoices, due);
    hide InvoiceForPeriod;
  }

  /* ---------------------------- stopping ---------------------------- */

  /** The step takes a subscription that was not to renew back to renewing. */
  predicate Resumes(step: Step) { step == Outside(Active) }

  predicate Stopped(a: Account) { a.status in {NonRenewing, Completed, Cancelled} }

  /** Stopping a subscription clears its due date and every job still queued, and nothing else; no other transition does. */
  lemma StopsAtOnce(a: Account, to: SubscriptionStatus)
    ensures var b := Take(a, Outside(to));
            if !SubscriptionMoves(a.status, to) then b == a else
            && b.status == to && b.invoices == a.invoices && b.charges == a.charges
            && |b.chargeJobs| == |a.chargeJobs| && |b.invoiceJobs| == |a.invoiceJobs|
            && if to in {NonRenewing, Completed, Cancelled} then
                 && b.nextPaymentDate == None
                 && (forall job <- b.chargeJobs + b.invoiceJobs :: job.stage != Queued)
                 && (forall k: nat :: k < |a.chargeJobs| && a.chargeJobs[k].stage != Queued ==> b.chargeJobs[k] == a.chargeJobs[k])
               else b.nextPaymentDate == a.nextPaymentDate && (a.nextPaymentDate.Some? ==> b.chargeJobs == a.chargeJobs)
  {
  }

  lemma StoppedTakesNothing(a: Account, step: Step)
    requires Stopped(a) && (a.status == NonRenewing ==> !Resumes(step))
    ensures var b := Take(a, step);
            && Stopped(b) && (a.status != NonRenewing ==> b.status == a.status)
            && b.charges == a.charges && b.invoices == a.invoices
            && |b.chargeJobs| == |a.chargeJobs| && |b.invoiceJobs| == |a.invoiceJobs|
  {
    hide InvoiceForPeriod, Bill, ScheduleCycle;
  }

  /** From then on, unless it is resumed, nothing is ever raised, charged or scheduled again, by a job in hand either. */
  lemma {:induction false} StoppedForGood(a: Account, steps: seq<Step>)
    requires Stopped(a) && (a.status == NonRenewing ==> forall step <- steps :: !Resumes(step))
    ensures var b := Follow(a, steps);
            && Stopped(b) && (a.status != NonRenewing ==> b.status == a.status)
            && b.charges == a.charges && b.invoices == a.invoices
            && |b.chargeJobs| == |a.chargeJobs| && |b.invoiceJobs| == |a.invoiceJobs|
  {
    hide Take;
    if steps != [] {
      StoppedForGood(a, steps[..|steps| - 1]);
      StoppedTakesNothing(Follow(a, steps[..|steps| - 1]), steps[|steps| - 1]);
    }
  }
}
