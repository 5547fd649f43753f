/** Recurring billing: each cycle's charge schedules the next cycle. */
module Billing {
  import opened Options
  import opened BillingStates
  import opened Recurrence
  import S = Storage

  /** What a subscription bills on: the period, and how far ahead its invoice is raised. */
  datatype Terms = Terms(interval: Interval, count: int, leadMs: int, invoiceLimit: int)

  datatype Invoice = Invoice(periodStart: int, periodEnd: int, amount: nat, status: InvoiceStatus)

  /** A debit of the stored instrument: the period it is for, and when it was made. */
  datatype Charge = Charge(due: int, at: int, amount: nat, settled: bool)

  /** Queued, claimed by the scheduler (which cancelling no longer stops), or finished or cancelled. */
  datatype Stage = Queued | InHand | Over

  datatype Job = Job(dueAt: int, runAt: int, stage: Stage)

  /** One subscription with its invoices, charges and jobs. The two job kinds have a table each. */
  datatype Account = Account(
    terms: Terms, status: SubscriptionStatus, nextPaymentDate: Option<int>, currentPeriodStart: int,
    invoiceCount: nat, invoices: seq<Invoice>, charges: seq<Charge>,
    invoiceJobs: seq<Job>, chargeJobs: seq<Job>)

  /** How the simulated debit goes, or that no instrument is stored. */
  datatype Outcome = NoInstrument | Declined | Settled

  /** A handler that throws leaves what it had already committed. */
  datatype Handled = Finished(account: Account) | Threw(account: Account) {
    predicate IsFailure() { Threw? }
    function PropagateFailure(): Handled
      requires Threw?
    { this }
    function Extract(): Account
      requires Finished?
    { account }
  }

  function Max(a: int, b: int): int { if a > b then a else b }

  function CancelQueued(jobs: seq<Job>): (r: seq<Job>)
    ensures |r| == |jobs|
    ensures forall i :: 0 <= i < |jobs| ==> r[i] == if jobs[i].stage == Queued then jobs[i].(stage := Over) else jobs[i]
  {
    seq(|jobs|, i requires 0 <= i < |jobs| =>
      if jobs[i].stage == Queued then jobs[i].(stage := Over) else jobs[i])
  }

  predicate Stops(to: SubscriptionStatus) { to == Completed || to == Cancelled || to == NonRenewing }

  /** `transitionSubscription`: a subscription left without a due date loses its queued jobs. */
  function Move(a: Account, to: SubscriptionStatus, date: Option<Option<int>>): Handled {
    if !SubscriptionMoves(a.status, to) then Threw(a) else
    var next := if date.Some? then date.value else if Stops(to) then None else a.nextPaymentDate;
    var moved := a.(status := to, nextPaymentDate := next);
    Finished(if next.Some? then moved else
             moved.(invoiceJobs := CancelQueued(a.invoiceJobs), chargeJobs := CancelQueued(a.chargeJobs)))
  }

  function MoveInvoice(a: Account, i: nat, to: InvoiceStatus): Handled
    requires i < |a.invoices|
  {
    if !InvoiceMoves(a.invoices[i].status, to) then Threw(a) else
    Finished(a.(invoices := a.invoices[i := a.invoices[i].(status := to)]))
  }

  /** The first invoice whose period starts at a due date. */
  function InvoiceForPeriod(invoices: seq<Invoice>, due: int): (r: Option<nat>)
    ensures r.Some? ==> r.value < |invoices| && invoices[r.value].periodStart == due
                        && forall i :: 0 <= i < r.value ==> invoices[i].periodStart != due
    ensures r.None? ==> forall i :: 0 <= i < |invoices| ==> invoices[i].periodStart != due
  {
    if invoices == [] then None else
    var earlier := InvoiceForPeriod(invoices[..|invoices| - 1], due);
    if earlier.Some? then earlier
    else if invoices[|invoices| - 1].periodStart == due then Some(|invoices| - 1) else None
  }

  predicate LimitReached(a: Account) {
    a.terms.invoiceLimit > 0 && a.invoiceCount >= a.terms.invoiceLimit
  }

  function PeriodEnd(a: Account, start: int): int { Next(start, a.terms.interval, a.terms.count) }

  function Raise(a: Account, due: int, amount: nat): Account {
    a.(invoices := a.invoices + [Invoice(due, PeriodEnd(a, due), amount, Pending)], invoiceCount := a.invoiceCount + 1)
  }

  function ScheduleCycle(a: Account, due: int, now: int): Account {
    var ahead := due - a.terms.leadMs;
    a.(invoiceJobs := if ahead > now then a.invoiceJobs + [Job(due, ahead, Queued)] else a.invoiceJobs,
       chargeJobs := a.chargeJobs + [Job(due, Max(due, now), Queued)])
  }

  function Start(a: Account, now: int): Account {
    if a.nextPaymentDate.None? then a else ScheduleCycle(a, a.nextPaymentDate.value, now)
  }

  function ToAttention(a: Account): Handled {
    if a.status == Attention then Finished(a) else Move(a, Attention, Some(a.nextPaymentDate))
  }

  function AdvanceCycle(a: Account, due: int, now: int): Handled {
    if !IsRenewable(a.status) then Finished(a)
    else if LimitReached(a) then Move(a, Completed, None)
    else
      var next := PeriodEnd(a, due);
      Finished(ScheduleCycle(a.(nextPaymentDate := Some(next), currentPeriodStart := due), next, now))
  }

  function HandleInvoice(a: Account, due: int, amount: nat): Handled {
    if !IsRenewable(a.status) || InvoiceForPeriod(a.invoices, due).Some? then Finished(a)
    else if LimitReached(a) then Move(a, Completed, None)
    else Finished(Raise(a, due, amount))
  }

  /** The charge handler from the invoice lookup on. */
  function Bill(a: Account, due: int, now: int, amount: nat, outcome: Outcome): Handled {
    var found := InvoiceForPeriod(a.invoices, due);
    if found.Some? then Debit(a, found.value, due, now, outcome)
    else if LimitReached(a) then Move(a, Completed, None)
    else Debit(Raise(a, due, amount), |a.invoices|, due, now, outcome)
  }

  function HandleCharge(a: Account, due: int, now: int, amount: nat, outcome: Outcome): Handled {
    if !IsRenewable(a.status) then Finished(a) else
    var billed :- if a.status == Trialing then Move(a, Active, Some(a.nextPaymentDate)) else Finished(a);
    Bill(billed, due, now, amount, outcome)
  }

  /** Debit the instrument for an invoice, and open the next cycle unless there is no instrument. */
  function Debit(a: Account, i: nat, due: int, now: int, outcome: Outcome): Handled
    requires i < |a.invoices|
  {
    if outcome == NoInstrument then
      var failed :- MoveInvoice(a, i, Failed);
      ToAttention(failed)
    else if a.invoices[i].amount == 0 then Threw(a)
    else
      var paid := outcome == Settled;
      var charged := a.(charges := a.charges + [Charge(due, now, a.invoices[i].amount, paid)]);
      var moved :- MoveInvoice(charged, i, if paid then Success else Failed);
      var standing :- if paid then Finished(moved) else ToAttention(moved);
      AdvanceCycle(standing, due, now)
  }

  /** What can happen to a subscription between two looks at it. */
  datatype Step =
    | ClaimInvoiceJob(job: nat) | ClaimChargeJob(job: nat)
    | RunInvoiceJob(job: nat, amount: nat) | RunChargeJob(job: nat, amount: nat, outcome: Outcome)
    | Outside(to: SubscriptionStatus)

  predicate Has(jobs: seq<Job>, i: nat, stage: Stage) { i < |jobs| && jobs[i].stage == stage }

  /** Any order of claims and runs, and any transition made from outside; an impossible step does nothing. */
  function Take(a: Account, step: Step): Account {
    match step
    case ClaimInvoiceJob(i) =>
      if Has(a.invoiceJobs, i, Queued) then a.(invoiceJobs := a.invoiceJobs[i := a.invoiceJobs[i].(stage := InHand)]) else a
    case ClaimChargeJob(i) =>
      if Has(a.chargeJobs, i, Queued) then a.(chargeJobs := a.chargeJobs[i := a.chargeJobs[i].(stage := InHand)]) else a
    case RunInvoiceJob(i, amount) =>
      if !Has(a.invoiceJobs, i, InHand) then a else
      var job := a.invoiceJobs[i];
      HandleInvoice(a.(invoiceJobs := a.invoiceJobs[i := job.(stage := Over)]), job.dueAt, amount).account
    case RunChargeJob(i, amount, outcome) =>
      if !Has(a.chargeJobs, i, InHand) then a else
      var job := a.chargeJobs[i];
      HandleCharge(a.(chargeJobs := a.chargeJobs[i := job.(stage := Over)]), job.dueAt, job.runAt, amount, outcome).account
    case Outside(to) => Move(a, to, None).account
  }

  function Follow(a: Account, steps: seq<Step>): Account {
    if steps == [] then a else Take(Follow(a, steps[..|steps| - 1]), steps[|steps| - 1])
  }

  /** A subscription just created, before its first cycle is scheduled. */
  predicate IsNew(a: Account) {
    && (a.status == Active || a.status == Trialing) && a.nextPaymentDate.Some?
    && a.invoiceCount == 0 && a.invoices == [] && a.charges == [] && a.invoiceJobs == [] && a.chargeJobs == []
  }

  /* ---------------------------- what every run keeps ---------------------------- */

  /** When the k-th cycle falls due. */
  function Due(t: Terms, first: int, k: nat): int { Iterate(first, t.interval, t.count, k) }

  ghost predicate IsADueDate(t: Terms, first: int, cycles: nat, due: int) {
    exists k: nat :: k < cycles && due == Due(t, first, k)
  }

  /** One charge job a cycle, at its due date or at once; only the newest can still be open. */
  ghost predicate JobsInOrder(a: Account, first: int, began: int) {
    && |a.chargeJobs| > 0
    && (forall k: nat :: k < |a.chargeJobs| ==>
          a.chargeJobs[k].dueAt == Due(a.terms, first, k) && a.chargeJobs[k].runAt == Max(Due(a.terms, first, k), began))
    && (forall k: nat :: k < |a.chargeJobs| - 1 ==> a.chargeJobs[k].stage == Over)
    && Matches(a.invoiceJobs, AheadOf(a.terms, first, began, |a.chargeJobs|))
  }

  /** When the k-th cycle is opened: at the start, or by the charge before it. */
  function Opened(t: Terms, first: int, began: int, k: nat): int {
    if k == 0 then began else Max(Due(t, first, k - 1), began)
  }

  /** The invoice jobs of the first `cycles` cycles: the lead ahead of the due date, where there is that much time. */
  function AheadOf(t: Terms, first: int, began: int, cycles: nat): (r: seq<(int, int)>)
    ensures |r| <= cycles
  {
    if cycles == 0 then [] else
    var due := Due(t, first, cycles - 1);
    AheadOf(t, first, began, cycles - 1)
    + if due - t.leadMs > Opened(t, first, began, cycles - 1) then [(due, due - t.leadMs)] else []
  }

  predicate Matches(jobs: seq<Job>, times: seq<(int, int)>) {
    |jobs| == |times| && forall i: nat :: i < |jobs| ==> (jobs[i].dueAt, jobs[i].runAt) == times[i]
  }

  lemma DueDatesAccumulate(t: Terms, first: int, n: nat, due: int)
    requires IsADueDate(t, first, n, due)
    ensures IsADueDate(t, first, n + 1, due)
  {
    hide Due;
  }

  lemma ItIsADueDate(t: Terms, first: int, n: nat)
    ensures IsADueDate(t, first, n + 1, Due(t, first, n))
  {
    hide Due;
  }

  lemma {:induction false} AheadOfADueDate(t: Terms, first: int, began: int, cycles: nat, i: nat)
    requires i < |AheadOf(t, first, began, cycles)|
    ensures IsADueDate(t, first, cycles, AheadOf(t, first, began, cycles)[i].0)
  {
    hide Due, IsADueDate, Opened;
    var n := cycles - 1;
    if i < |AheadOf(t, first, began, n)| {
      AheadOfADueDate(t, first, began, n, i);
      DueDatesAccumulate(t, first, n, AheadOf(t, first, began, n)[i].0);
    } else {
      ItIsADueDate(t, first, n);
    }
  }

  /** The k-th invoice is for the k-th period; never more of them than the limit. */
  ghost predicate InvoicesInOrder(a: Account, first: int) {
    && a.invoiceCount == |a.invoices|
    && |a.chargeJobs| - 1 <= |a.invoices| <= |a.chargeJobs|
    && (forall k: nat :: k < |a.invoices| ==>
          a.invoices[k].periodStart == Due(a.terms, first, k) && a.invoices[k].periodEnd == Due(a.terms, first, k + 1))
    && (a.terms.invoiceLimit > 0 ==> |a.chargeJobs| <= a.terms.invoiceLimit)
  }

  /** The k-th charge is for the k-th invoice, made when it fell due. */
  ghost predicate ChargesInOrder(a: Account, first: int, began: int) {
    && |a.chargeJobs| - 1 <= |a.charges| <= |a.chargeJobs|
    && |a.charges| <= |a.invoices|
    && (forall k: nat :: k < |a.charges| ==>
          && a.charges[k].due == Due(a.terms, first, k)
          && a.charges[k].at == Max(Due(a.terms, first, k), began)
          && a.charges[k].amount == a.invoices[k].amount > 0)
  }

  /** The current window is one period long, from the first renewal on. */
  ghost predicate WindowIsAPeriod(a: Account, first: int) {
    && |a.chargeJobs| > 0
    && (a.nextPaymentDate.Some? ==> a.nextPaymentDate.value == Due(a.terms, first, |a.chargeJobs| - 1))
    && (|a.chargeJobs| > 1 ==> a.currentPeriodStart == Due(a.terms, first, |a.chargeJobs| - 2))
  }

  ghost predicate OpenIsUncharged(a: Account) {
    |a.chargeJobs| > 0 && a.chargeJobs[|a.chargeJobs| - 1].stage != Over ==> |a.charges| < |a.chargeJobs|
  }

  ghost predicate Sound(a: Account, first: int, began: int) {
    && JobsInOrder(a, first, began) && InvoicesInOrder(a, first) && ChargesInOrder(a, first, began)
    && WindowIsAPeriod(a, first) && OpenIsUncharged(a)
  }

  lemma DueIncreases(t: Terms, first: int, j: nat, k: nat)
    ensures Due(t, first, j) == Due(t, first, k) <==> j == k
    ensures j < k ==> Due(t, first, j) < Due(t, first, k)
  {
    hide Iterate;
    if j < k { IteratesIncrease(first, t.interval, t.count, j, k); }
    if k < j { IteratesIncrease(first, t.interval, t.count, k, j); }
  }

  /** Looking a period's invoice up by its start finds the invoice of that cycle, or that there is none. */
  lemma PeriodIsFound(a: Account, first: int, k: nat)
    requires InvoicesInOrder(a, first) && k < |a.chargeJobs|
    ensures InvoiceForPeriod(a.invoices, Due(a.terms, first, k)) == if k < |a.invoices| then Some(k) else None
  {
    var due := Due(a.terms, first, k);
    forall i: nat | i < |a.invoices| ensures a.invoices[i].periodStart == due <==> i == k {
      DueIncreases(a.terms, first, i, k);
    }
    hide Due;
  }

  /** The same jobs, except that some have moved on; an open one is still the last. */
  predicate MovedOn(jobs: seq<Job>, later: seq<Job>) {
    && |later| == |jobs|
    && forall i: nat :: i < |jobs| ==>
         && later[i].dueAt == jobs[i].dueAt && later[i].runAt == jobs[i].runAt
         && (jobs[i].stage == Over ==> later[i].stage == Over)
  }

  /** Only the status, the stages of jobs, and perhaps the loss of the due date. */
  predicate OnlyStatusMoved(a: Account, b: Account) {
    && MovedOn(a.invoiceJobs, b.invoiceJobs) && MovedOn(a.chargeJobs, b.chargeJobs)
    && (b.nextPaymentDate == a.nextPaymentDate || b.nextPaymentDate == None)
    && b == a.(status := b.status, nextPaymentDate := b.nextPaymentDate,
               invoiceJobs := b.invoiceJobs, chargeJobs := b.chargeJobs)
  }

  lemma MovesOn(a: Account, to: SubscriptionStatus, date: Option<Option<int>>)
    requires date.Some? ==> date.value == a.nextPaymentDate
    ensures OnlyStatusMoved(a, Move(a, to, date).account)
  {
    hide SubscriptionTargets;
    var b := Move(a, to, date).account;
    assert MovedOn(a.invoiceJobs, b.invoiceJobs);
    assert MovedOn(a.chargeJobs, b.chargeJobs);
  }

  lemma JobsStayInOrder(a: Account, b: Account, first: int, began: int)
    requires JobsInOrder(a, first, began) && OnlyStatusMoved(a, b)
    ensures JobsInOrder(b, first, began)
  {
    hide Due, AheadOf;
  }

  lemma BooksStayInOrder(a: Account, b: Account, first: int, began: int)
    requires InvoicesInOrder(a, first) && ChargesInOrder(a, first, began) && OnlyStatusMoved(a, b)
    ensures InvoicesInOrder(b, first) && ChargesInOrder(b, first, began)
  {
    hide Due;
    assert b.invoices == a.invoices && b.charges == a.charges && b.terms == a.terms;
  }

  lemma WindowStays(a: Account, b: Account, first: int)
    requires WindowIsAPeriod(a, first) && OpenIsUncharged(a) && OnlyStatusMoved(a, b)
    ensures WindowIsAPeriod(b, first) && OpenIsUncharged(b)
  {
    hide Due;
  }

  lemma OnlyStatusMovedKeeps(a: Account, b: Account, first: int, began: int)
    requires Sound(a, first, began) && OnlyStatusMoved(a, b)
    ensures Sound(b, first, began)
  {
    hide Due, JobsInOrder, InvoicesInOrder, ChargesInOrder, WindowIsAPeriod, OpenIsUncharged, OnlyStatusMoved;
    JobsStayInOrder(a, b, first, began);
    BooksStayInOrder(a, b, first, began);
    WindowStays(a, b, first);
  }

  lemma RaiseKeepsBooks(a: Account, first: int, began: int, amount: nat)
    requires InvoicesInOrder(a, first) && ChargesInOrder(a, first, began)
    requires |a.invoices| < |a.chargeJobs|
    ensures var b := Raise(a, Due(a.terms, first, |a.invoices|), amount);
            InvoicesInOrder(b, first) && ChargesInOrder(b, first, began)
  {
    DueSteps(a.terms, first, |a.invoices|);
    hide Due, Next;
  }

  lemma RaiseKeeps(a: Account, first: int, began: int, amount: nat)
    requires Sound(a, first, began) && |a.invoices| < |a.chargeJobs| && !LimitReached(a)
    ensures Sound(Raise(a, Due(a.terms, first, |a.invoices|), amount), first, began)
  {
    hide Due, IsADueDate, InvoicesInOrder, ChargesInOrder, PeriodEnd;
    RaiseKeepsBooks(a, first, began, amount);
  }

  lemma HandleInvoiceKeeps(a: Account, due: int, amount: nat, first: int, began: int)
    requires Sound(a, first, began) && IsADueDate(a.terms, first, |a.chargeJobs|, due)
    ensures Sound(HandleInvoice(a, due, amount).account, first, began)
  {
    var k: nat :| k < |a.chargeJobs| && due == Due(a.terms, first, k);
    PeriodIsFound(a, first, k);
    if IsRenewable(a.status) && k >= |a.invoices| {
      if LimitReached(a) {
        MovesOn(a, Completed, None);
        OnlyStatusMovedKeeps(a, Move(a, Completed, None).account, first, began);
      } else {
        RaiseKeeps(a, first, began, amount);
      }
    }
    hide Sound, Due, Move, Raise;
  }

  /** A charge job at work on the newest cycle, which is not charged yet. */
  ghost predicate Charging(a: Account, first: int, began: int, due: int, now: int) {
    && Sound(a, first, began)
    && a.chargeJobs[|a.chargeJobs| - 1].stage == Over
    && |a.charges| < |a.chargeJobs|
    && due == Due(a.terms, first, |a.chargeJobs| - 1) && now == Max(due, began)
  }

  lemma AheadGrows(a: Account, first: int, began: int, due: int, now: int)
    requires Matches(a.invoiceJobs, AheadOf(a.terms, first, began, |a.chargeJobs|))
    requires due == Due(a.terms, first, |a.chargeJobs|) && now == Opened(a.terms, first, began, |a.chargeJobs|)
    ensures Matches(ScheduleCycle(a, due, now).invoiceJobs, AheadOf(a.terms, first, began, |a.chargeJobs| + 1))
  {
    hide Due, Opened;
  }

  lemma ScheduleKeepsJobs(a: Account, first: int, began: int, due: int, now: int)
    requires JobsInOrder(a, first, began) && a.chargeJobs[|a.chargeJobs| - 1].stage == Over
    requires due == Due(a.terms, first, |a.chargeJobs|) && now == Max(Due(a.terms, first, |a.chargeJobs| - 1), began)
    ensures JobsInOrder(ScheduleCycle(a, due, now), first, began)
  {
    hide Due, AheadOf, Matches;
    AheadGrows(a, first, began, due, now);
    DueIncreases(a.terms, first, |a.chargeJobs| - 1, |a.chargeJobs|);
  }

  lemma ScheduleKeepsBooks(a: Account, first: int, began: int, due: int, now: int)
    requires InvoicesInOrder(a, first) && ChargesInOrder(a, first, began) && |a.charges| == |a.chargeJobs|
    requires !LimitReached(a)
    ensures var b := ScheduleCycle(a, due, now); InvoicesInOrder(b, first) && ChargesInOrder(b, first, began)
  {
    hide Due;
  }

  lemma ScheduleKeepsTheRest(a: Account, first: int, began: int, due: int, now: int)
    requires |a.chargeJobs| > 0 && |a.charges| == |a.chargeJobs|
    requires a.nextPaymentDate == Some(due) && due == Due(a.terms, first, |a.chargeJobs|)
    requires a.currentPeriodStart == Due(a.terms, first, |a.chargeJobs| - 1)
    ensures var b := ScheduleCycle(a, due, now); WindowIsAPeriod(b, first) && OpenIsUncharged(b)
  {
    hide Due;
  }

  lemma NextCycleKeeps(a: Account, first: int, began: int, due: int, now: int)
    requires Sound(a, first, began) && |a.charges| == |a.chargeJobs| && !LimitReached(a)
    requires due == Due(a.terms, first, |a.chargeJobs| - 1) && now == Max(due, began)
    ensures var next := PeriodEnd(a, due);
            Sound(ScheduleCycle(a.(nextPaymentDate := Some(next), currentPeriodStart := due), next, now), first, began)
  {
    var next := PeriodEnd(a, due);
    assert next == Due(a.terms, first, |a.chargeJobs|);
    hide Due, PeriodEnd, ScheduleCycle, IsADueDate;
    var moved := a.(nextPaymentDate := Some(next), currentPeriodStart := due);
    ScheduleKeepsJobs(moved, first, began, next, now);
    ScheduleKeepsBooks(moved, first, began, next, now);
    ScheduleKeepsTheRest(moved, first, began, next, now);
  }

  lemma AdvanceKeeps(a: Account, first: int, began: int, due: int, now: int)
    requires Sound(a, first, began) && |a.charges| == |a.chargeJobs|
    requires due == Due(a.terms, first, |a.chargeJobs| - 1) && now == Max(due, began)
    ensures Sound(AdvanceCycle(a, due, now).account, first, began)
  {
    hide Due, PeriodEnd, Move, Sound, ScheduleCycle;
    if LimitReached(a) {
      MovesOn(a, Completed, None);
      OnlyStatusMovedKeeps(a, Move(a, Completed, None).account, first, began);
    } else {
      NextCycleKeeps(a, first, began, due, now);
    }
  }

  lemma InvoiceMoveKeeps(a: Account, i: nat, to: InvoiceStatus, first: int, began: int)
    requires Sound(a, first, began) && i < |a.invoices|
    ensures Sound(MoveInvoice(a, i, to).account, first, began)
    ensures var b := MoveInvoice(a, i, to).account; b == a.(invoices := b.invoices)
  {
    hide Due, AheadOf, InvoiceTargets;
  }

  lemma ToAttentionKeeps(a: Account, first: int, began: int)
    requires Sound(a, first, began)
    ensures Sound(ToAttention(a).account, first, began)
    ensures OnlyStatusMoved(a, ToAttention(a).account)
  {
    MovesOn(a, Attention, Some(a.nextPaymentDate));
    OnlyStatusMovedKeeps(a, Move(a, Attention, Some(a.nextPaymentDate)).account, first, began);
    hide Sound, Move;
  }

  lemma ChargeKeeps(a: Account, first: int, began: int, due: int, now: int, paid: bool)
    requires Charging(a, first, began, due, now) && |a.invoices| == |a.chargeJobs|
    requires a.invoices[|a.invoices| - 1].amount > 0
    ensures var b := a.(charges := a.charges + [Charge(due, now, a.invoices[|a.invoices| - 1].amount, paid)]);
            Sound(b, first, began) && |b.charges| == |b.chargeJobs|
  {
    hide Due, AheadOf;
  }

  lemma DebitKeeps(a: Account, due: int, now: int, outcome: Outcome, first: int, began: int)
    requires Charging(a, first, began, due, now) && |a.invoices| == |a.chargeJobs|
    ensures Sound(Debit(a, |a.invoices| - 1, due, now, outcome).account, first, began)
  {
    hide Due, Sound, Move, MoveInvoice, AdvanceCycle, ToAttention;
    var i := |a.invoices| - 1;
    if outcome == NoInstrument {
      InvoiceMoveKeeps(a, i, Failed, first, began);
      var failed := MoveInvoice(a, i, Failed);
      if failed.Finished? { ToAttentionKeeps(failed.account, first, began); }
    } else if a.invoices[i].amount > 0 {
      var paid := outcome == Settled;
      ChargeKeeps(a, first, began, due, now, paid);
      var charged := a.(charges := a.charges + [Charge(due, now, a.invoices[i].amount, paid)]);
      InvoiceMoveKeeps(charged, i, if paid then Success else Failed, first, began);
      var moved := MoveInvoice(charged, i, if paid then Success else Failed);
      if moved.Finished? {
        ToAttentionKeeps(moved.account, first, began);
        var standing := if paid then moved else ToAttention(moved.account);
        if standing.Finished? { AdvanceKeeps(standing.account, first, began, due, now); }
      }
    }
  }

  lemma HandleChargeKeeps(a: Account, due: int, now: int, amount: nat, outcome: Outcome, first: int, began: int)
    requires Charging(a, first, began, due, now)
    ensures Sound(HandleCharge(a, due, now, amount, outcome).account, first, began)
  {
    hide Due, Sound, Move, Debit, Raise;
    if IsRenewable(a.status) {
      MovesOn(a, Active, Some(a.nextPaymentDate));
      OnlyStatusMovedKeeps(a, Move(a, Active, Some(a.nextPaymentDate)).account, first, began);
      var b := if a.status == Trialing then Move(a, Active, Some(a.nextPaymentDate)) else Finished(a);
      if b.Finished? { BillNewestCycle(b.account, due, now, amount, outcome, first, began); }
    }
  }

  lemma SoundCounts(a: Account, first: int, began: int)
    requires Sound(a, first, began)
    ensures InvoicesInOrder(a, first) && |a.chargeJobs| - 1 <= |a.invoices| <= |a.chargeJobs| && |a.chargeJobs| > 0
    ensures |a.invoiceJobs| <= |a.chargeJobs| && (a.terms.invoiceLimit > 0 ==> |a.chargeJobs| <= a.terms.invoiceLimit)
  {
    hide Due, AheadOf;
  }

  lemma RaisingIsCharging(a: Account, due: int, now: int, amount: nat, first: int, began: int)
    requires Charging(a, first, began, due, now) && |a.invoices| < |a.chargeJobs| && !LimitReached(a)
    ensures var b := Raise(a, due, amount);
            Charging(b, first, began, due, now) && |a.invoices| + 1 == |b.invoices| == |b.chargeJobs|
  {
    SoundCounts(a, first, began);
    RaiseKeeps(a, first, began, amount);
    hide Due, Sound;
  }

  lemma BillNewestCycle(a: Account, due: int, now: int, amount: nat, outcome: Outcome, first: int, began: int)
    requires Charging(a, first, began, due, now)
    ensures Sound(Bill(a, due, now, amount, outcome).account, first, began)
  {
    hide Due, Sound, Move, Debit, Raise, InvoiceForPeriod, InvoicesInOrder, OnlyStatusMoved;
    SoundCounts(a, first, began);
    PeriodIsFound(a, first, |a.chargeJobs| - 1);
    if |a.invoices| == |a.chargeJobs| {
      DebitKeeps(a, due, now, outcome, first, began);
    } else if LimitReached(a) {
      MovesOn(a, Completed, None);
      OnlyStatusMovedKeeps(a, Move(a, Completed, None).account, first, began);
    } else {
      RaisingIsCharging(a, due, now, amount, first, began);
      DebitKeeps(Raise(a, due, amount), due, now, outcome, first, began);
    }
  }

  lemma StageKeeps(a: Account, b: Account, first: int, began: int)
    requires Sound(a, first, began)
    requires b == a.(invoiceJobs := b.invoiceJobs, chargeJobs := b.chargeJobs)
    requires MovedOn(a.invoiceJobs, b.invoiceJobs) && MovedOn(a.chargeJobs, b.chargeJobs)
    ensures Sound(b, first, began)
  {
    hide Sound;
    OnlyStatusMovedKeeps(a, b, first, began);
  }

  lemma OpenJobIsNewest(a: Account, first: int, began: int, i: nat)
    requires Sound(a, first, began) && Has(a.chargeJobs, i, InHand)
    ensures i == |a.chargeJobs| - 1 && |a.charges| < |a.chargeJobs|
    ensures a.chargeJobs[i].dueAt == Due(a.terms, first, i)
    ensures a.chargeJobs[i].runAt == Max(Due(a.terms, first, i), began)
  {
    hide Due, AheadOf;
  }

  lemma TakeKeeps(a: Account, step: Step, first: int, began: int)
    requires Sound(a, first, began)
    ensures Sound(Take(a, step), first, began)
  {
    hide Due, Sound, Move, HandleInvoice, HandleCharge;
    match step
    case ClaimInvoiceJob(i) => StageKeeps(a, Take(a, step), first, began);
    case ClaimChargeJob(i) => StageKeeps(a, Take(a, step), first, began);
    case Outside(to) =>
      MovesOn(a, to, None);
      OnlyStatusMovedKeeps(a, Take(a, step), first, began);
    case RunInvoiceJob(i, amount) =>
      if Has(a.invoiceJobs, i, InHand) {
        var b := a.(invoiceJobs := a.invoiceJobs[i := a.invoiceJobs[i].(stage := Over)]);
        StageKeeps(a, b, first, began);
        InvoiceJobIsDue(a, first, began, i);
        HandleInvoiceKeeps(b, a.invoiceJobs[i].dueAt, amount, first, began);
      }
    case RunChargeJob(i, amount, outcome) =>
      if Has(a.chargeJobs, i, InHand) {
        var job := a.chargeJobs[i];
        var b := a.(chargeJobs := a.chargeJobs[i := job.(stage := Over)]);
        StageKeeps(a, b, first, began);
        OpenJobIsNewest(a, first, began, i);
        HandleChargeKeeps(b, job.dueAt, job.runAt, amount, outcome, first, began);
      }
  }

  lemma InvoiceJobIsDue(a: Account, first: int, began: int, i: nat)
    requires Sound(a, first, began) && i < |a.invoiceJobs|
    ensures IsADueDate(a.terms, first, |a.chargeJobs|, a.invoiceJobs[i].dueAt)
  {
    hide Due, IsADueDate, AheadOf;
    AheadOfADueDate(a.terms, first, began, |a.chargeJobs|, i);
  }

  lemma StartIsSound(a: Account, now: int)
    requires IsNew(a)
    ensures Sound(Start(a, now), a.nextPaymentDate.value, now)
  {
    assert Due(a.terms, a.nextPaymentDate.value, 0) == a.nextPaymentDate.value;
    hide Due, IsADueDate;
  }

  /** Whatever is claimed, run, declined or stopped, in any order, the books stay in order. */
  lemma {:induction false} RunsStaySound(a: Account, now: int, steps: seq<Step>)
    requires IsNew(a)
    ensures Sound(Follow(Start(a, now), steps), a.nextPaymentDate.value, now)
  {
    hide Sound, Start, Take;
    if steps == [] {
      StartIsSound(a, now);
    } else {
      RunsStaySound(a, now, steps[..|steps| - 1]);
      TakeKeeps(Follow(Start(a, now), steps[..|steps| - 1]), steps[|steps| - 1], a.nextPaymentDate.value, now);
    }
  }

  /* ---------------------------- what that says ---------------------------- */

  /** One invoice a period, back to back from the first due date, and no more than the limit. */
  lemma OneInvoiceAPeriod(a: Account, now: int, steps: seq<Step>)
    requires IsNew(a)
    ensures var b, first := Follow(Start(a, now), steps), a.nextPaymentDate.value;
            && (forall k: nat :: k < |b.invoices| ==>
                  && b.invoices[k].periodStart == Iterate(first, b.terms.interval, b.terms.count, k)
                  && b.invoices[k].periodEnd == Next(b.invoices[k].periodStart, b.terms.interval, b.terms.count))
            && (forall j: nat, k: nat :: j < k < |b.invoices| ==>
                  b.invoices[j].periodEnd <= b.invoices[k].periodStart)
            && b.invoiceCount == |b.invoices|
            && (b.terms.invoiceLimit > 0 ==> |b.invoices| <= b.terms.invoiceLimit)
  {
    var b, first := Follow(Start(a, now), steps), a.nextPaymentDate.value;
    RunsStaySound(a, now, steps);
    SoundCounts(b, first, now);
    hide Start, Follow, Iterate, Next, Sound;
    forall j: nat, k: nat | j < k < |b.invoices| ensures b.invoices[j].periodEnd <= b.invoices[k].periodStart {
      DueIncreases(b.terms, first, j + 1, k);
    }
    forall k: nat | k < |b.invoices|
      ensures b.invoices[k].periodEnd == Next(b.invoices[k].periodStart, b.terms.interval, b.terms.count)
    {
      DueSteps(b.terms, first, k);
    }
  }

  lemma DueSteps(t: Terms, first: int, k: nat)
    ensures Due(t, first, k + 1) == Next(Due(t, first, k), t.interval, t.count)
  {
    hide Next;
  }

  /** The k-th charge is for the k-th invoice, due at the k-th date and made then, never twice. */
  lemma ChargesFollowTheCalendar(a: Account, now: int, steps: seq<Step>)
    requires IsNew(a)
    ensures var b, first := Follow(Start(a, now), steps), a.nextPaymentDate.value;
            && |b.charges| <= |b.invoices|
            && (forall k: nat :: k < |b.charges| ==>
                  && b.charges[k].due == Iterate(first, b.terms.interval, b.terms.count, k)
                  && b.charges[k].at == Max(b.charges[k].due, now)
                  && b.charges[k].amount == b.invoices[k].amount)
            && (forall j: nat, k: nat :: j < k < |b.charges| ==> b.charges[j].due < b.charges[k].due)
  {
    var b, first := Follow(Start(a, now), steps), a.nextPaymentDate.value;
    RunsStaySound(a, now, steps);
    hide Start, Follow, Iterate, Next, JobsInOrder, InvoicesInOrder, WindowIsAPeriod;
    forall j: nat, k: nat | j < k < |b.charges| ensures b.charges[j].due < b.charges[k].due {
      DueIncreases(b.terms, first, j, k);
    }
  }

  /** After a renewal the next payment date is one period after the start of the current one. */
  lemma TheWindowIsOnePeriod(a: Account, now: int, steps: seq<Step>)
    requires IsNew(a)
    ensures var b := Follow(Start(a, now), steps);
            |b.chargeJobs| > 1 && b.nextPaymentDate.Some? ==>
              b.nextPaymentDate.value == Next(b.currentPeriodStart, b.terms.interval, b.terms.count)
  {
    var b, first := Follow(Start(a, now), steps), a.nextPaymentDate.value;
    RunsStaySound(a, now, steps);
    hide Start, Follow, Iterate, Next, JobsInOrder, InvoicesInOrder, ChargesInOrder;
    if |b.chargeJobs| > 1 { DueSteps(b.terms, first, |b.chargeJobs| - 2); }
  }

  /** The schedule is the calendar: one charge job a due date, never early, and its invoice job the lead ahead of it
      exactly when the cycle was opened with more time than that. */
  lemma TheScheduleIsTheCalendar(a: Account, now: int, steps: seq<Step>)
    requires IsNew(a)
    ensures var b, first := Follow(Start(a, now), steps), a.nextPaymentDate.value;
            && (forall k: nat :: k < |b.chargeJobs| ==>
                  && b.chargeJobs[k].dueAt == Iterate(first, b.terms.interval, b.terms.count, k)
                  && b.chargeJobs[k].runAt == Max(b.chargeJobs[k].dueAt, now))
            && Matches(b.invoiceJobs, AheadOf(b.terms, first, now, |b.chargeJobs|))
  {
    RunsStaySound(a, now, steps);
    hide Start, Follow, Iterate, Next, InvoicesInOrder, ChargesInOrder, WindowIsAPeriod, AheadOf, Matches;
  }

  /* ---------------------------- a run left alone ---------------------------- */

  /** Only its own jobs, with an instrument stored and something to bill. */
  predicate Unattended(step: Step) {
    match step
    case Outside(_) => false
    case RunInvoiceJob(_, amount) => amount > 0
    case RunChargeJob(_, amount, outcome) => amount > 0 && outcome != NoInstrument
    case _ => true
  }

  /** Billed periods are owed until they are charged, and then paid or failed as the charge went. */
  predicate OwesTheNewest(a: Account) {
    && (forall i: nat :: i < |a.invoices| ==> a.invoices[i].amount > 0)
    && |a.charges| <= |a.invoices|
    && (forall k: nat :: k < |a.charges| ==>
          a.invoices[k].status == if a.charges[k].settled then Success else Failed)
    && a.invoiceCount == |a.invoices|
    && |a.chargeJobs| - 1 <= |a.invoices| <= |a.chargeJobs|
    && (0 < |a.invoices| == |a.chargeJobs| && |a.charges| < |a.chargeJobs| ==>
          a.invoices[|a.invoices| - 1].status == Pending)
  }

  predicate AnyDeclined(charges: seq<Charge>) { exists k: nat :: k < |charges| && !charges[k].settled }

  /** Renewing, with the newest cycle not yet charged; one declined charge is enough for `attention`. */
  predicate Renewing(a: Account) {
    && OwesTheNewest(a)
    && (a.status == Attention <==> AnyDeclined(a.charges))
    && IsRenewable(a.status) && a.nextPaymentDate.Some?
    && |a.charges| == |a.chargeJobs| - 1
    && (a.terms.invoiceLimit > 0 ==> |a.chargeJobs| <= a.terms.invoiceLimit)
  }

  /** Either the newest cycle is still to be charged, or the limit is used up exactly. */
  predicate OnTrack(a: Account) {
    if a.status == Completed then
      && 0 < a.terms.invoiceLimit == |a.charges| == |a.invoices| == |a.chargeJobs|
      && a.chargeJobs[|a.chargeJobs| - 1].stage == Over
      && OwesTheNewest(a)
    else
      Renewing(a) && a.chargeJobs[|a.chargeJobs| - 1].stage != Over
  }

  lemma OneMoreCharge(charges: seq<Charge>, c: Charge)
    ensures AnyDeclined(charges + [c]) <==> AnyDeclined(charges) || !c.settled
  {
    var more := charges + [c];
    if AnyDeclined(charges) {
      var k: nat :| k < |charges| && !charges[k].settled;
      assert !more[k].settled;
    }
    if !c.settled { assert !more[|charges|].settled; }
  }

  lemma DebitStaysOnTrack(a: Account, due: int, now: int, outcome: Outcome)
    requires Renewing(a) && |a.invoices| == |a.chargeJobs| && a.status != Trialing && outcome != NoInstrument
    requires a.chargeJobs[|a.chargeJobs| - 1].stage == Over
    ensures OnTrack(Debit(a, |a.invoices| - 1, due, now, outcome).account)
  {
    hide Next, AnyDeclined;
    var i := |a.invoices| - 1;
    OneMoreCharge(a.charges, Charge(due, now, a.invoices[i].amount, outcome == Settled));
  }

  /** The handler at work: the newest job is taken, its cycle not charged. */
  ghost predicate AtWork(a: Account, first: int, began: int, due: int) {
    && Sound(a, first, began) && Renewing(a)
    && a.chargeJobs[|a.chargeJobs| - 1].stage == Over
    && due == Due(a.terms, first, |a.chargeJobs| - 1)
  }

  lemma BillStaysOnTrack(a: Account, due: int, now: int, amount: nat, outcome: Outcome, first: int, began: int)
    requires AtWork(a, first, began, due) && a.status != Trialing && amount > 0 && outcome != NoInstrument
    ensures OnTrack(Bill(a, due, now, amount, outcome).account)
  {
    hide Due, Sound, Debit, OnTrack, InvoiceForPeriod, InvoicesInOrder, PeriodEnd;
    SoundCounts(a, first, began);
    PeriodIsFound(a, first, |a.chargeJobs| - 1);
    if |a.invoices| == |a.chargeJobs| {
      DebitStaysOnTrack(a, due, now, outcome);
    } else {
      DebitStaysOnTrack(Raise(a, due, amount), due, now, outcome);
    }
  }

  lemma ChargeStaysOnTrack(a: Account, due: int, now: int, amount: nat, outcome: Outcome, first: int, began: int)
    requires AtWork(a, first, began, due) && amount > 0 && outcome != NoInstrument
    ensures OnTrack(HandleCharge(a, due, now, amount, outcome).account)
  {
    hide Due, Sound, Bill, OnTrack, OnlyStatusMoved;
    if a.status == Trialing {
      var active := Move(a, Active, Some(a.nextPaymentDate));
      assert active == Finished(a.(status := Active));
      MovesOn(a, Active, Some(a.nextPaymentDate));
      OnlyStatusMovedKeeps(a, active.account, first, began);
      BillStaysOnTrack(active.account, due, now, amount, outcome, first, began);
    } else {
      BillStaysOnTrack(a, due, now, amount, outcome, first, began);
    }
  }

  lemma InvoiceStaysOnTrack(a: Account, due: int, amount: nat, first: int, began: int)
    requires Sound(a, first, began) && OnTrack(a) && IsADueDate(a.terms, first, |a.chargeJobs|, due) && amount > 0
    ensures OnTrack(HandleInvoice(a, due, amount).account)
  {
    hide Due, Sound, InvoicesInOrder, PeriodEnd, InvoiceForPeriod, Move;
    var k: nat :| k < |a.chargeJobs| && due == Due(a.terms, first, k);
    SoundCounts(a, first, began);
    PeriodIsFound(a, first, k);
    if a.status != Completed && k == |a.invoices| { RaisedIsOnTrack(a, due, amount); }
  }

  lemma RaisedIsOnTrack(a: Account, due: int, amount: nat)
    requires OnTrack(a) && a.status != Completed && |a.invoices| == |a.chargeJobs| - 1 && amount > 0
    ensures !LimitReached(a) && OnTrack(Raise(a, due, amount))
  {
    hide PeriodEnd;
  }

  lemma TakeStaysOnTrack(a: Account, step: Step, first: int, began: int)
    requires Sound(a, first, began) && OnTrack(a) && Unattended(step)
    ensures OnTrack(Take(a, step))
  {
    hide Due, Sound, HandleInvoice, HandleCharge, IsADueDate;
    match step
    case ClaimInvoiceJob(i) =>
    case ClaimChargeJob(i) =>
    case RunInvoiceJob(i, amount) =>
      if Has(a.invoiceJobs, i, InHand) {
        var b := a.(invoiceJobs := a.invoiceJobs[i := a.invoiceJobs[i].(stage := Over)]);
        StageKeeps(a, b, first, began);
        InvoiceJobIsDue(a, first, began, i);
        InvoiceStaysOnTrack(b, a.invoiceJobs[i].dueAt, amount, first, began);
      }
    case RunChargeJob(i, amount, outcome) =>
      if Has(a.chargeJobs, i, InHand) {
        var job := a.chargeJobs[i];
        var b := a.(chargeJobs := a.chargeJobs[i := job.(stage := Over)]);
        StageKeeps(a, b, first, began);
        OpenJobIsNewest(a, first, began, i);
        ChargeStaysOnTrack(b, job.dueAt, job.runAt, amount, outcome, first, began);
      }
  }

  /** Left alone, a subscription completes on exactly its limit of charges, and until then has one due. */
  lemma {:induction false} LeftAloneItChargesToTheLimit(a: Account, now: int, steps: seq<Step>)
    requires IsNew(a) && forall step <- steps :: Unattended(step)
    ensures var b := Follow(Start(a, now), steps);
            && OnTrack(b)
            && (b.status == Completed <==> b.terms.invoiceLimit > 0 && |b.charges| == b.terms.invoiceLimit)
            && (b.status == Completed ==> |b.invoices| == |b.charges|)
            && (forall k: nat :: k < |b.charges| ==>
                  b.invoices[k].status == if b.charges[k].settled then Success else Failed)
            && (b.status != Completed ==> b.chargeJobs[|b.charges|].stage != Over)
            && (b.status != Completed ==> (b.status == Attention <==> AnyDeclined(b.charges)))
  {
    hide Sound, Take;
    if steps != [] {
      var before := Follow(Start(a, now), steps[..|steps| - 1]);
      LeftAloneItChargesToTheLimit(a, now, steps[..|steps| - 1]);
      RunsStaySound(a, now, steps[..|steps| - 1]);
      TakeStaysOnTrack(before, steps[|steps| - 1], a.nextPaymentDate.value, now);
    }
  }

  /* ---------------------------- when the chain goes on ---------------------------- */

  /** The newest cycle's invoice, once raised, is owed until its charge job runs, whatever happens outside. */
  predicate NewestIsOwed(a: Account) {
    0 < |a.invoices| == |a.chargeJobs| && a.chargeJobs[|a.chargeJobs| - 1].stage != Over ==>
      a.invoices[|a.invoices| - 1].status == Pending
  }

  /** What the newest cycle is billed: what its invoice says, or what one raised now would. */
  function Billed(a: Account, amount: nat): nat {
    if 0 < |a.invoices| == |a.chargeJobs| then a.invoices[|a.invoices| - 1].amount else amount
  }

  predicate LimitUsedUp(a: Account) { a.terms.invoiceLimit > 0 && |a.chargeJobs| >= a.terms.invoiceLimit }

  /** A charge is made: the account renews, an instrument is stored, and there is something to bill. */
  predicate Charges(a: Account, amount: nat, outcome: Outcome) {
    IsRenewable(a.status) && outcome != NoInstrument && Billed(a, amount) > 0
  }

  /** How one charge job leaves the chain: longer by one, completed, or stopped with the account still renewing. */
  predicate ChainAfter(a: Account, c: Account, amount: nat, outcome: Outcome) {
    && |c.invoices| <= |a.chargeJobs|
    && |c.chargeJobs| == |a.chargeJobs| + (if Charges(a, amount, outcome) && !LimitUsedUp(a) then 1 else 0)
    && (|c.chargeJobs| > |a.chargeJobs| ==> c.chargeJobs[|a.chargeJobs|].stage == Queued)
    && (IsRenewable(c.status) <==> IsRenewable(a.status) && !(Charges(a, amount, outcome) && LimitUsedUp(a)))
  }

  lemma DebitMovesTheChain(a: Account, due: int, now: int, amount: nat, outcome: Outcome)
    requires 0 < |a.invoices| == |a.chargeJobs| && a.invoiceCount == |a.invoices|
    requires a.invoices[|a.invoices| - 1].status == Pending && (a.status == Active || a.status == Attention)
    ensures ChainAfter(a, Debit(a, |a.invoices| - 1, due, now, outcome).account, amount, outcome)
  {
    hide Next;
  }

  lemma BillMovesTheChain(a: Account, due: int, now: int, amount: nat, outcome: Outcome, first: int, began: int)
    requires Charging(a, first, began, due, now) && (a.status == Active || a.status == Attention)
    requires |a.invoices| == |a.chargeJobs| ==> a.invoices[|a.invoices| - 1].status == Pending
    ensures ChainAfter(a, Bill(a, due, now, amount, outcome).account, amount, outcome)
  {
    SoundCounts(a, first, began);
    PeriodIsFound(a, first, |a.chargeJobs| - 1);
    hide Due, Sound, Debit, InvoiceForPeriod, PeriodEnd, ChainAfter;
    assert a.invoiceCount == |a.invoices|;
    hide InvoicesInOrder;
    if |a.invoices| == |a.chargeJobs| {
      DebitMovesTheChain(a, due, now, amount, outcome);
    } else {
      DebitMovesTheChain(Raise(a, due, amount), due, now, amount, outcome);
      RaisedChain(a, due, amount, outcome, Debit(Raise(a, due, amount), |a.invoices|, due, now, outcome).account);
    }
  }

  lemma RaisedChain(a: Account, due: int, amount: nat, outcome: Outcome, c: Account)
    requires |a.invoices| == |a.chargeJobs| - 1 && ChainAfter(Raise(a, due, amount), c, amount, outcome)
    ensures ChainAfter(a, c, amount, outcome)
  {
    hide PeriodEnd;
  }

  lemma TrialEnds(a: Account)
    requires a.status == Trialing
    ensures var active := Move(a, Active, Some(a.nextPaymentDate));
            active.Finished? && active.account.status == Active && OnlyStatusMoved(a, active.account)
  {
    MovesOn(a, Active, Some(a.nextPaymentDate));
  }

  lemma SameChain(a: Account, b: Account, c: Account, amount: nat, outcome: Outcome)
    requires b.invoices == a.invoices && b.terms == a.terms && |b.chargeJobs| == |a.chargeJobs|
    requires IsRenewable(a.status) && IsRenewable(b.status) && ChainAfter(b, c, amount, outcome)
    ensures ChainAfter(a, c, amount, outcome)
  {
  }

  lemma HandleChargeMovesTheChain(a: Account, due: int, now: int, amount: nat, outcome: Outcome, first: int, began: int)
    requires Charging(a, first, began, due, now)
    requires |a.invoices| == |a.chargeJobs| ==> a.invoices[|a.invoices| - 1].status == Pending
    ensures ChainAfter(a, HandleCharge(a, due, now, amount, outcome).account, amount, outcome)
  {
    hide Due, Sound, Bill, Move, OnlyStatusMoved, InvoicesInOrder, ChainAfter;
    if a.status == Trialing {
      TrialEnds(a);
      var active := Move(a, Active, Some(a.nextPaymentDate)).account;
      OnlyStatusMovedKeeps(a, active, first, began);
      StillCharging(a, active, first, began, due, now);
      hide Charging;
      BillMovesTheChain(active, due, now, amount, outcome, first, began);
      SameChain(a, active, Bill(active, due, now, amount, outcome).account, amount, outcome);
    } else if IsRenewable(a.status) {
      BillMovesTheChain(a, due, now, amount, outcome, first, began);
    } else {
      NotRenewing(a, amount, outcome, first, began);
    }
  }

  lemma NotRenewing(a: Account, amount: nat, outcome: Outcome, first: int, began: int)
    requires Sound(a, first, began) && !IsRenewable(a.status)
    ensures ChainAfter(a, a, amount, outcome)
  {
    SoundCounts(a, first, began);
    hide Sound, InvoicesInOrder;
  }

  lemma StillCharging(a: Account, b: Account, first: int, began: int, due: int, now: int)
    requires Charging(a, first, began, due, now) && OnlyStatusMoved(a, b) && Sound(b, first, began)
    ensures Charging(b, first, began, due, now)
    ensures b.invoices == a.invoices && b.terms == a.terms && |b.chargeJobs| == |a.chargeJobs|
  {
    SoundCounts(a, first, began);
    hide Due, Sound, InvoicesInOrder;
  }

  lemma StatusMoveKeepsOwed(a: Account, b: Account)
    requires NewestIsOwed(a) && OnlyStatusMoved(a, b)
    ensures NewestIsOwed(b)
  {
  }

  lemma InvoiceJobKeepsOwed(a: Account, due: int, amount: nat)
    requires NewestIsOwed(a)
    ensures NewestIsOwed(HandleInvoice(a, due, amount).account)
  {
    hide PeriodEnd, InvoiceForPeriod, Move, OnlyStatusMoved;
    if LimitReached(a) {
      MovesOn(a, Completed, None);
      StatusMoveKeepsOwed(a, Move(a, Completed, None).account);
    }
  }

  lemma TakeKeepsOwed(a: Account, step: Step, first: int, began: int)
    requires Sound(a, first, began) && NewestIsOwed(a)
    ensures NewestIsOwed(Take(a, step))
  {
    hide Sound, HandleCharge, HandleInvoice, Move, OnlyStatusMoved, ChainAfter;
    match step
    case ClaimInvoiceJob(i) =>
    case ClaimChargeJob(i) =>
    case RunInvoiceJob(i, amount) =>
      if Has(a.invoiceJobs, i, InHand) {
        InvoiceJobKeepsOwed(a.(invoiceJobs := a.invoiceJobs[i := a.invoiceJobs[i].(stage := Over)]),
                            a.invoiceJobs[i].dueAt, amount);
      }
    case Outside(to) =>
      MovesOn(a, to, None);
      StatusMoveKeepsOwed(a, Move(a, to, None).account);
    case RunChargeJob(i, amount, outcome) =>
      if Has(a.chargeJobs, i, InHand) { ChargeJobMovesTheChain(a, i, amount, outcome, first, began); }
  }

  /** The account once its newest charge job is taken up. */
  function TakenUp(a: Account, i: nat): Account
    requires i < |a.chargeJobs|
  {
    a.(chargeJobs := a.chargeJobs[i := a.chargeJobs[i].(stage := Over)])
  }

  lemma TakenUpIsCharging(a: Account, i: nat, first: int, began: int)
    requires Sound(a, first, began) && NewestIsOwed(a) && Has(a.chargeJobs, i, InHand)
    ensures var b, job := TakenUp(a, i), a.chargeJobs[i];
            && i == |a.chargeJobs| - 1 && Charging(b, first, began, job.dueAt, job.runAt)
            && (|b.invoices| == |b.chargeJobs| ==> b.invoices[|b.invoices| - 1].status == Pending)
  {
    hide Due, Sound;
    StageKeeps(a, TakenUp(a, i), first, began);
    OpenJobIsNewest(a, first, began, i);
  }

  lemma ChargeJobMovesTheChain(a: Account, i: nat, amount: nat, outcome: Outcome, first: int, began: int)
    requires Sound(a, first, began) && NewestIsOwed(a) && Has(a.chargeJobs, i, InHand)
    ensures var c := Take(a, RunChargeJob(i, amount, outcome));
            && i == |a.chargeJobs| - 1 && ChainAfter(a, c, amount, outcome) && NewestIsOwed(c)
            && |c.chargeJobs| > i && c.chargeJobs[i].stage == Over
  {
    var b, job := TakenUp(a, i), a.chargeJobs[i];
    var c := HandleCharge(b, job.dueAt, job.runAt, amount, outcome).account;
    TakenUpIsCharging(a, i, first, began);
    hide Sound, Charging, HandleCharge, ChainAfter;
    HandleChargeMovesTheChain(b, job.dueAt, job.runAt, amount, outcome, first, began);
    NewestStaysOver(b, job.dueAt, job.runAt, amount, outcome);
    TakenUpChain(a, i, c, amount, outcome);
  }

  lemma TakenUpChain(a: Account, i: nat, c: Account, amount: nat, outcome: Outcome)
    requires i == |a.chargeJobs| - 1 && ChainAfter(TakenUp(a, i), c, amount, outcome)
    requires |c.chargeJobs| > i && c.chargeJobs[i].stage == Over
    ensures ChainAfter(a, c, amount, outcome) && NewestIsOwed(c)
  {
  }

  /** A charge job at work opens no job but the next cycle's. */
  lemma NewestStaysOver(a: Account, due: int, now: int, amount: nat, outcome: Outcome)
    requires |a.chargeJobs| > 0 && a.chargeJobs[|a.chargeJobs| - 1].stage == Over
    ensures var c := HandleCharge(a, due, now, amount, outcome).account;
            |c.chargeJobs| >= |a.chargeJobs| && c.chargeJobs[|a.chargeJobs| - 1].stage == Over
  {
    ChargeGrows(a, due, now, amount, outcome);
  }

  lemma {:induction false} NewestStaysOwed(a: Account, now: int, steps: seq<Step>)
    requires IsNew(a)
    ensures NewestIsOwed(Follow(Start(a, now), steps))
  {
    hide NewestIsOwed, Take, Sound;
    if steps == [] {
      StartIsOwed(a, now);
    } else {
      NewestStaysOwed(a, now, steps[..|steps| - 1]);
      RunsStaySound(a, now, steps[..|steps| - 1]);
      TakeKeepsOwed(Follow(Start(a, now), steps[..|steps| - 1]), steps[|steps| - 1], a.nextPaymentDate.value, now);
    }
  }

  lemma StartIsOwed(a: Account, now: int)
    requires IsNew(a)
    ensures NewestIsOwed(Start(a, now))
  {
  }

  /**
   * In every run, attended or not: a charge job opens the next cycle exactly when the account renews, an instrument
   * is stored, there is something to bill, and the limit is not used up. A renewing account without an instrument,
   * or with nothing to bill, is left renewing with no charge ahead of it.
   */
  lemma OpensTheNextCycleExactlyWhen(a: Account, now: int, steps: seq<Step>, i: nat, amount: nat, outcome: Outcome)
    requires IsNew(a) && Has(Follow(Start(a, now), steps).chargeJobs, i, InHand)
    ensures var b := Follow(Start(a, now), steps);
            var c := Take(b, RunChargeJob(i, amount, outcome));
            && |c.chargeJobs| == |b.chargeJobs| + (if Charges(b, amount, outcome) && !LimitUsedUp(b) then 1 else 0)
            && (IsRenewable(c.status) && (forall job <- c.chargeJobs :: job.stage == Over)
                <==> IsRenewable(b.status) && (outcome == NoInstrument || Billed(b, amount) == 0))
  {
    var b, first := Follow(Start(a, now), steps), a.nextPaymentDate.value;
    hide Start, Follow, Take, Sound, NewestIsOwed, ChainAfter;
    var c := Take(b, RunChargeJob(i, amount, outcome));
    RunsStaySound(a, now, steps);
    NewestStaysOwed(a, now, steps);
    ChargeJobMovesTheChain(b, i, amount, outcome, first, now);
    TakeKeeps(b, RunChargeJob(i, amount, outcome), first, now);
    ChainEnds(b, c, i, amount, outcome, first, now);
  }

  lemma ChainEnds(b: Account, c: Account, i: nat, amount: nat, outcome: Outcome, first: int, now: int)
    requires i == |b.chargeJobs| - 1 && Sound(c, first, now) && ChainAfter(b, c, amount, outcome)
    requires |c.chargeJobs| > i && c.chargeJobs[i].stage == Over
    ensures |c.chargeJobs| == |b.chargeJobs| + (if Charges(b, amount, outcome) && !LimitUsedUp(b) then 1 else 0)
    ensures IsRenewable(c.status) && (forall job <- c.chargeJobs :: job.stage == Over)
            <==> IsRenewable(b.status) && (outcome == NoInstrument || Billed(b, amount) == 0)
  {
    hide Due, AheadOf, InvoicesInOrder, ChargesInOrder, WindowIsAPeriod;
    assert forall k: nat :: k < i ==> c.chargeJobs[k].stage == Over;
    if |c.chargeJobs| > |b.chargeJobs| { assert c.chargeJobs[|b.chargeJobs|] in c.chargeJobs; }
  }

  /* ---------------------------- how long it takes ---------------------------- */

  function Rank(stage: Stage): nat {
    match stage
    case Queued => 0
    case InHand => 1
    case Over => 2
  }

  function Progress(): Job -> int { (job: Job) => Rank(job.stage) }

  /** How far the jobs have come, both kinds together. */
  function Work(a: Account): int { S.Sum(a.invoiceJobs, Progress()) + S.Sum(a.chargeJobs, Progress()) }

  /** No job goes back, and new ones may follow. */
  predicate Grows(jobs: seq<Job>, later: seq<Job>) {
    |jobs| <= |later| && forall i: nat :: i < |jobs| ==> Rank(jobs[i].stage) <= Rank(later[i].stage)
  }

  lemma {:induction false} GrowingWorks(jobs: seq<Job>, later: seq<Job>)
    requires Grows(jobs, later)
    ensures S.Sum(jobs, Progress()) <= S.Sum(later, Progress()) <= 2 * |later|
    decreases |later|
  {
    if later != [] {
      var n := |later| - 1;
      GrowingWorks(if |jobs| > n then jobs[..n] else jobs, later[..n]);
    }
  }

  predicate BothGrow(a: Account, b: Account) {
    a.terms == b.terms && Grows(a.invoiceJobs, b.invoiceJobs) && Grows(a.chargeJobs, b.chargeJobs)
  }

  lemma BothGrowingWorks(a: Account, b: Account)
    requires BothGrow(a, b)
    ensures Work(a) <= Work(b) <= 2 * (|b.invoiceJobs| + |b.chargeJobs|)
  {
    GrowingWorks(a.invoiceJobs, b.invoiceJobs);
    GrowingWorks(a.chargeJobs, b.chargeJobs);
  }

  lemma AdvanceGrows(a: Account, due: int, now: int)
    ensures BothGrow(a, AdvanceCycle(a, due, now).account)
  {
    hide Next, SubscriptionTargets, PeriodEnd;
  }

  lemma AttentionGrows(a: Account)
    ensures BothGrow(a, ToAttention(a).account)
  {
    hide SubscriptionTargets;
  }

  lemma SameJobsGrow(a: Account, b: Account)
    requires b.terms == a.terms && b.invoiceJobs == a.invoiceJobs && b.chargeJobs == a.chargeJobs
    ensures BothGrow(a, b)
  {
  }

  lemma GrowsOn(a: Account, b: Account, c: Account)
    requires BothGrow(a, b) && BothGrow(b, c)
    ensures BothGrow(a, c)
  {
  }

  lemma DebitGrows(a: Account, i: nat, due: int, now: int, outcome: Outcome)
    requires i < |a.invoices|
    ensures BothGrow(a, Debit(a, i, due, now, outcome).account)
  {
    hide ToAttention, AdvanceCycle, InvoiceTargets, BothGrow;
    var paid := outcome == Settled;
    var charged := if outcome == NoInstrument then a else
                   a.(charges := a.charges + [Charge(due, now, a.invoices[i].amount, paid)]);
    var moved := MoveInvoice(charged, i, if paid then Success else Failed).account;
    var standing := if paid then moved else ToAttention(moved).account;
    SameJobsGrow(a, a);
    SameJobsGrow(a, charged);
    SameJobsGrow(a, moved);
    AttentionGrows(moved);
    GrowsOn(a, moved, ToAttention(moved).account);
    AdvanceGrows(standing, due, now);
    GrowsOn(a, standing, AdvanceCycle(standing, due, now).account);
  }

  lemma ChargeGrows(a: Account, due: int, now: int, amount: nat, outcome: Outcome)
    ensures BothGrow(a, HandleCharge(a, due, now, amount, outcome).account)
  {
    hide Next, SubscriptionTargets, InvoiceTargets, Debit, InvoiceForPeriod;
    var b := (if a.status == Trialing then Move(a, Active, Some(a.nextPaymentDate)) else Finished(a)).account;
    var found := InvoiceForPeriod(b.invoices, due);
    if found.Some? {
      DebitGrows(b, found.value, due, now, outcome);
    } else {
      DebitGrows(Raise(b, due, amount), |b.invoices|, due, now, outcome);
    }
  }

  /** The step finds the job it is about. */
  predicate Effective(a: Account, step: Step) {
    match step
    case ClaimInvoiceJob(i) => Has(a.invoiceJobs, i, Queued)
    case ClaimChargeJob(i) => Has(a.chargeJobs, i, Queued)
    case RunInvoiceJob(i, _) => Has(a.invoiceJobs, i, InHand)
    case RunChargeJob(i, _, _) => Has(a.chargeJobs, i, InHand)
    case Outside(_) => false
  }

  lemma EffectiveStepsWork(a: Account, step: Step)
    ensures Work(Take(a, step)) >= Work(a) + if Effective(a, step) then 1 else 0
    ensures Take(a, step).terms == a.terms
  {
    hide HandleInvoice, HandleCharge, Work, Grows;
    match step
    case ClaimInvoiceJob(i) => if Effective(a, step) { InvoiceJobWorks(a, i, InHand); }
    case ClaimChargeJob(i) => if Effective(a, step) { ChargeJobWorks(a, i, InHand); }
    case RunInvoiceJob(i, amount) =>
      if Effective(a, step) {
        InvoiceJobWorks(a, i, Over);
        var b := a.(invoiceJobs := a.invoiceJobs[i := a.invoiceJobs[i].(stage := Over)]);
        InvoiceGrows(b, a.invoiceJobs[i].dueAt, amount);
        BothGrowingWorks(b, Take(a, step));
      }
    case RunChargeJob(i, amount, outcome) =>
      if Effective(a, step) {
        ChargeJobWorks(a, i, Over);
        var job := a.chargeJobs[i];
        var b := a.(chargeJobs := a.chargeJobs[i := job.(stage := Over)]);
        ChargeGrows(b, job.dueAt, job.runAt, amount, outcome);
        BothGrowingWorks(b, Take(a, step));
      }
    case Outside(to) =>
      MoveGrows(a, to);
      BothGrowingWorks(a, Take(a, step));
  }

  lemma InvoiceJobWorks(a: Account, i: nat, stage: Stage)
    requires i < |a.invoiceJobs| && Rank(a.invoiceJobs[i].stage) < Rank(stage)
    ensures Work(a.(invoiceJobs := a.invoiceJobs[i := a.invoiceJobs[i].(stage := stage)])) > Work(a)
  {
    S.SumUpdate(a.invoiceJobs, i, a.invoiceJobs[i].(stage := stage), Progress());
  }

  lemma ChargeJobWorks(a: Account, i: nat, stage: Stage)
    requires i < |a.chargeJobs| && Rank(a.chargeJobs[i].stage) < Rank(stage)
    ensures Work(a.(chargeJobs := a.chargeJobs[i := a.chargeJobs[i].(stage := stage)])) > Work(a)
  {
    S.SumUpdate(a.chargeJobs, i, a.chargeJobs[i].(stage := stage), Progress());
  }

  lemma MoveGrows(a: Account, to: SubscriptionStatus)
    ensures BothGrow(a, Move(a, to, None).account)
  {
    hide SubscriptionTargets;
  }

  lemma InvoiceGrows(a: Account, due: int, amount: nat)
    ensures BothGrow(a, HandleInvoice(a, due, amount).account)
  {
    hide SubscriptionTargets, InvoiceForPeriod, Next;
  }

  function EffectiveSteps(a: Account, steps: seq<Step>): nat {
    if steps == [] then 0 else
    var before := steps[..|steps| - 1];
    EffectiveSteps(a, before) + if Effective(Follow(a, before), steps[|steps| - 1]) then 1 else 0
  }

  lemma {:induction false} StepsAreWork(a: Account, steps: seq<Step>)
    ensures Work(Follow(a, steps)) >= Work(a) + EffectiveSteps(a, steps)
    ensures Follow(a, steps).terms == a.terms
  {
    hide Work, Take, Effective;
    if steps != [] {
      StepsAreWork(a, steps[..|steps| - 1]);
      EffectiveStepsWork(Follow(a, steps[..|steps| - 1]), steps[|steps| - 1]);
    }
  }

  /** Under a limit, no run has more than four steps a cycle that do anything: a claim and a run of each job. */
  lemma LimitedRunsEnd(a: Account, now: int, steps: seq<Step>)
    requires IsNew(a) && a.terms.invoiceLimit > 0
    ensures EffectiveSteps(Start(a, now), steps) <= 4 * a.terms.invoiceLimit
  {
    hide Sound, Follow, Work, InvoicesInOrder;
    var b := Follow(Start(a, now), steps);
    StepsAreWork(Start(a, now), steps);
    WorkStartsAtNothing(a, now);
    BothGrowingWorks(b, b);
    RunsStaySound(a, now, steps);
    SoundCounts(b, a.nextPaymentDate.value, now);
  }

  lemma WorkStartsAtNothing(a: Account, now: int)
    requires IsNew(a)
    ensures Work(Start(a, now)) >= 0 && Start(a, now).terms == a.terms
  {
    BothGrowingWorks(a, Start(a, now));
  }
}
