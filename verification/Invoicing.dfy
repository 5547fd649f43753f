/** Invoices and their lines: an invoice's amount is a fold over the lines on it. */
module Invoicing {
  import opened Options
  import opened BillingStates
  import S = Storage
  import E = EngineSpec

  /** A line waits without an invoice until one sweeps it up. A deleted line keeps its place, dead. */
  datatype Line = Line(
    customer: nat, subscription: Option<nat>, invoice: Option<nat>, amount: int, currency: string, live: bool)

  datatype Invoice = Invoice(
    customer: nat, subscription: Option<nat>, status: InvoiceStatus, amount: int, currency: string)

  datatype Subscription = Subscription(customer: nat, amount: int, invoiceCount: nat, currency: string)

  datatype Books = Books(invoices: seq<Invoice>, lines: seq<Line>, subscriptions: seq<Subscription>)

  datatype LineDraft = LineDraft(
    customer: Option<nat>, subscription: Option<nat>,
    amount: Option<int>, unitAmount: Option<int>, quantity: Option<int>, currency: Option<string>)

  datatype Op =
    | CreateInvoice(subscription: Option<nat>, customer: Option<nat>, amount: Option<int>, currency: Option<string>,
                    draft: bool, items: seq<LineDraft>)
    | FinalizeInvoice(invoice: nat)
    | TransitionInvoice(invoice: nat, to: InvoiceStatus)
    | AddInvoiceItem(item: LineDraft, on: Option<nat>)
    | DeleteInvoiceItem(line: nat)

  /* ---------------------------- folds and filters ---------------------------- */

  function OnInvoice(i: nat): Line -> int {
    (l: Line) => if l.live && l.invoice == Some(i) then l.amount else 0
  }

  /** `totalFor`: everything on an invoice, however many lines there are. */
  function TotalFor(lines: seq<Line>, i: nat): int { S.Sum(lines, OnInvoice(i)) }

  /** `listPending`: a subscription's invoice takes its own lines and unattached ones, never another's. */
  predicate IsPending(l: Line, customer: nat, subscription: Option<nat>) {
    && l.live && l.invoice.None? && l.customer == customer
    && (subscription.Some? ==> l.subscription == subscription || l.subscription.None?)
  }

  function Sweep(lines: seq<Line>, i: nat, customer: nat, subscription: Option<nat>): (r: seq<Line>)
    ensures |r| == |lines|
    ensures forall k :: 0 <= k < |lines| ==>
              r[k] == if IsPending(lines[k], customer, subscription) then lines[k].(invoice := Some(i)) else lines[k]
  {
    seq(|lines|, k requires 0 <= k < |lines| =>
      if IsPending(lines[k], customer, subscription) then lines[k].(invoice := Some(i)) else lines[k])
  }

  function DraftAmount(): LineDraft -> int {
    (d: LineDraft) => E.Default(d.amount, E.Default(d.unitAmount, 0) * E.Default(d.quantity, 1))
  }

  function BuildLine(d: LineDraft, customer: nat, subscription: Option<nat>, invoice: Option<nat>, currency: string): Line {
    Line(if d.customer.Some? then d.customer.value else customer,
         if d.subscription.Some? then d.subscription else subscription,
         invoice, DraftAmount()(d), if d.currency.Some? then d.currency.value else currency, true)
  }

  /** The lines of a new invoice, which lends them what they leave out. */
  function BuildLines(items: seq<LineDraft>, on: Invoice, i: nat): (r: seq<Line>)
    ensures |r| == |items|
    ensures forall k :: 0 <= k < |items| ==>
              r[k] == BuildLine(items[k], on.customer, on.subscription, Some(i), on.currency)
  {
    seq(|items|, k requires 0 <= k < |items| => BuildLine(items[k], on.customer, on.subscription, Some(i), on.currency))
  }

  /** The currency of a line that names none and is on no invoice. */
  const LINE_CURRENCY := "USD"

  /* ---------------------------- the operations ---------------------------- */

  function CountRaised(subscriptions: seq<Subscription>, which: Option<nat>): seq<Subscription>
    requires which.Some? ==> which.value < |subscriptions|
  {
    if which.None? then subscriptions
    else subscriptions[which.value := subscriptions[which.value].(invoiceCount := subscriptions[which.value].invoiceCount + 1)]
  }

  function Retotal(b: Books, i: nat): Books
    requires i < |b.invoices|
  {
    b.(invoices := b.invoices[i := b.invoices[i].(amount := E.Max0(TotalFor(b.lines, i)))])
  }

  function Payer(b: Books, subscription: Option<nat>, customer: Option<nat>): Option<nat>
    requires subscription.Some? ==> subscription.value < |b.subscriptions|
  {
    if subscription.Some? then Some(b.subscriptions[subscription.value].customer) else customer
  }

  /** What the caller's lines come to, or else the amount asked for. */
  function Asked(b: Books, subscription: Option<nat>, amount: Option<int>, items: seq<LineDraft>): int
    requires subscription.Some? ==> subscription.value < |b.subscriptions|
  {
    if items != [] then S.Sum(items, DraftAmount())
    else E.Default(amount, if subscription.Some? then b.subscriptions[subscription.value].amount else 0)
  }

  /** The subscription's currency, or else the one asked for. */
  function Denomination(b: Books, subscription: Option<nat>, currency: Option<string>): Option<string>
    requires subscription.Some? ==> subscription.value < |b.subscriptions|
  {
    if subscription.Some? then Some(b.subscriptions[subscription.value].currency) else currency
  }

  /** The row a new invoice starts from. */
  function NewInvoice(b: Books, subscription: Option<nat>, payer: nat, amount: Option<int>, currency: string,
                      draft: bool, items: seq<LineDraft>): Invoice
    requires subscription.Some? ==> subscription.value < |b.subscriptions|
  {
    Invoice(payer, subscription, if draft then Draft else Pending, E.Max0(Asked(b, subscription, amount, items)), currency)
  }

  /** Insert an invoice and its lines; one that is not a draft sweeps, totals and counts at once. */
  function Raise(b: Books, created: Invoice, items: seq<LineDraft>): Books
    requires created.subscription.Some? ==> created.subscription.value < |b.subscriptions|
  {
    var i := |b.invoices|;
    var built := b.(invoices := b.invoices + [created], lines := b.lines + BuildLines(items, created, i));
    if created.status == Draft then built else
    Retotal(built.(lines := Sweep(built.lines, i, created.customer, created.subscription),
                   subscriptions := CountRaised(b.subscriptions, created.subscription)), i)
  }

  function CreateInvoiceStep(b: Books, subscription: Option<nat>, customer: Option<nat>, amount: Option<int>,
                             currency: Option<string>, draft: bool, items: seq<LineDraft>): E.Result<Books>
  {
    if subscription.Some? && subscription.value >= |b.subscriptions| then E.Err(E.NotFound) else
    var payer, money := Payer(b, subscription, customer), Denomination(b, subscription, currency);
    if payer.None? then E.Err(E.ValidationFailed) else
    if money.None? || money.value == "" then E.Err(E.ValidationFailed) else
    E.Ok(Raise(b, NewInvoice(b, subscription, payer.value, amount, money.value, draft, items), items))
  }

  function FinalizeInvoiceStep(b: Books, i: nat): E.Result<Books> {
    if i >= |b.invoices| then E.Err(E.NotFound) else
    var invoice := b.invoices[i];
    if !InvoiceMoves(invoice.status, Pending) then E.Err(E.InvalidTransition) else
    E.Ok(Retotal(b.(lines := Sweep(b.lines, i, invoice.customer, invoice.subscription),
                    invoices := b.invoices[i := invoice.(status := Pending)]), i))
  }

  function TransitionInvoiceStep(b: Books, i: nat, to: InvoiceStatus): E.Result<Books> {
    if i >= |b.invoices| then E.Err(E.NotFound)
    else if !InvoiceMoves(b.invoices[i].status, to) then E.Err(E.InvalidTransition)
    else E.Ok(b.(invoices := b.invoices[i := b.invoices[i].(status := to)]))
  }

  function AddInvoiceItemStep(b: Books, d: LineDraft, on: Option<nat>): E.Result<Books> {
    if on.Some? then
      if on.value >= |b.invoices| then E.Err(E.NotFound) else
      var invoice := b.invoices[on.value];
      if invoice.status != Draft then E.Err(E.InvalidTransition) else
      E.Ok(Retotal(b.(lines := b.lines + [BuildLine(d, invoice.customer, invoice.subscription, on, invoice.currency)]), on.value))
    else if d.customer.None? then E.Err(E.ConstraintFailed)
    else E.Ok(b.(lines := b.lines + [BuildLine(d, d.customer.value, None, None, LINE_CURRENCY)]))
  }

  function DeleteInvoiceItemStep(b: Books, k: nat): E.Result<Books> {
    if k >= |b.lines| || !b.lines[k].live then E.Err(E.NotFound) else
    var on := b.lines[k].invoice;
    var deleted := b.(lines := b.lines[k := b.lines[k].(live := false)]);
    if on.None? then E.Ok(deleted)
    else if on.value >= |b.invoices| then E.Err(E.NotFound)
    else if b.invoices[on.value].status != Draft then E.Err(E.InvalidTransition)
    else E.Ok(Retotal(deleted, on.value))
  }

  function Apply(b: Books, op: Op): E.Result<Books> {
    match op
    case CreateInvoice(subscription, customer, amount, currency, draft, items) =>
      CreateInvoiceStep(b, subscription, customer, amount, currency, draft, items)
    case FinalizeInvoice(i) => FinalizeInvoiceStep(b, i)
    case TransitionInvoice(i, to) => TransitionInvoiceStep(b, i, to)
    case AddInvoiceItem(d, on) => AddInvoiceItemStep(b, d, on)
    case DeleteInvoiceItem(k) => DeleteInvoiceItemStep(b, k)
  }

  /** A refused operation changes nothing. */
  function After(b: Books, op: Op): Books { var r := Apply(b, op); if r.Ok? then r.value else b }

  /** Before the first invoice: subscriptions, and nothing billed. */
  function NewBooks(subscriptions: seq<Subscription>): Books { Books([], [], subscriptions) }

  function Run(b: Books, ops: seq<Op>): Books {
    if ops == [] then b else After(Run(b, ops[..|ops| - 1]), ops[|ops| - 1])
  }

  /* ---------------------------- the total is the fold ---------------------------- */

  /** Lines point at invoices there are. */
  predicate Linked(b: Books) {
    forall k: nat :: k < |b.lines| && b.lines[k].invoice.Some? ==> b.lines[k].invoice.value < |b.invoices|
  }

  /** The stored amount of an invoice is what its lines come to, floored at nothing. */
  predicate Folded(b: Books, i: nat) { i < |b.invoices| && b.invoices[i].amount == E.Max0(TotalFor(b.lines, i)) }

  lemma {:induction false} SumAgrees<A, B>(a: seq<A>, b: seq<B>, f: A -> int, g: B -> int)
    requires |a| == |b| && forall k :: 0 <= k < |a| ==> f(a[k]) == g(b[k])
    ensures S.Sum(a, f) == S.Sum(b, g)
  {
    if a != [] { SumAgrees(a[..|a| - 1], b[..|b| - 1], f, g); }
  }

  /** Sweeping onto one invoice leaves every other invoice's lines as they were. */
  lemma SweepElsewhere(lines: seq<Line>, i: nat, customer: nat, subscription: Option<nat>, j: nat)
    requires i != j
    ensures TotalFor(Sweep(lines, i, customer, subscription), j) == TotalFor(lines, j)
  {
    SumAgrees(Sweep(lines, i, customer, subscription), lines, OnInvoice(j), OnInvoice(j));
  }

  lemma BuiltElsewhere(lines: seq<Line>, built: seq<Line>, j: nat)
    requires forall l <- built :: l.invoice != Some(j)
    ensures TotalFor(lines + built, j) == TotalFor(lines, j)
  {
    S.SumPost(lines, built, OnInvoice(j));
    SumAgrees(built, built, OnInvoice(j), (l: Line) => 0);
    SumNothing(built);
  }

  lemma {:induction false} SumNothing<T>(rows: seq<T>)
    ensures S.Sum(rows, (r: T) => 0) == 0
  {
    if rows != [] { SumNothing(rows[..|rows| - 1]); }
  }

  lemma DeletedElsewhere(lines: seq<Line>, k: nat, j: nat)
    requires k < |lines| && lines[k].invoice != Some(j)
    ensures TotalFor(lines[k := lines[k].(live := false)], j) == TotalFor(lines, j)
  {
    S.SumUpdate(lines, k, lines[k].(live := false), OnInvoice(j));
  }

  /** The row an accepted `createInvoice` inserts. */
  function Created(b: Books, op: Op): Invoice
    requires op.CreateInvoice? && Apply(b, op).Ok?
  {
    NewInvoice(b, op.subscription, Payer(b, op.subscription, op.customer).value, op.amount,
               Denomination(b, op.subscription, op.currency).value, op.draft, op.items)
  }

  lemma CreateKeepsFolded(b: Books, op: Op, j: nat)
    requires op.CreateInvoice? && Apply(b, op).Ok? && Folded(b, j)
    ensures Folded(After(b, op), j)
  {
    var i, created := |b.invoices|, Created(b, op);
    var built := BuildLines(op.items, created, i);
    BuiltElsewhere(b.lines, built, j);
    SweepElsewhere(b.lines + built, i, created.customer, op.subscription, j);
    hide TotalFor, Sweep, BuildLines, Asked;
  }

  /** Whatever happens, an amount that is the fold stays the fold. */
  lemma StepKeepsFolded(b: Books, op: Op, j: nat)
    requires Folded(b, j)
    ensures Folded(After(b, op), j)
  {
    hide TotalFor, Sweep, CreateInvoiceStep, BuildLine, InvoiceTargets;
    if Apply(b, op).Ok? {
      match op
      case CreateInvoice(_, _, _, _, _, _) => CreateKeepsFolded(b, op, j);
      case TransitionInvoice(_, _) =>
      case FinalizeInvoice(i) =>
        if i != j { SweepElsewhere(b.lines, i, b.invoices[i].customer, b.invoices[i].subscription, j); }
      case AddInvoiceItem(d, on) =>
        if on != Some(j) { AddedElsewhere(b, d, on, j); }
      case DeleteInvoiceItem(k) =>
        if b.lines[k].invoice != Some(j) { DeletedElsewhere(b.lines, k, j); }
    }
  }

  lemma AddedElsewhere(b: Books, d: LineDraft, on: Option<nat>, j: nat)
    requires on != Some(j) && Apply(b, AddInvoiceItem(d, on)).Ok?
    ensures TotalFor(After(b, AddInvoiceItem(d, on)).lines, j) == TotalFor(b.lines, j)
  {
    var after := After(b, AddInvoiceItem(d, on)).lines;
    assert after == b.lines + [after[|b.lines|]];
    S.SumOne(b.lines, after[|b.lines|], OnInvoice(j));
  }

  lemma StepKeepsLinked(b: Books, op: Op)
    requires Linked(b)
    ensures Linked(After(b, op)) && |After(b, op).invoices| >= |b.invoices|
  {
    hide TotalFor, InvoiceTargets, Asked, DraftAmount;
  }

  lemma {:induction false} RunKeepsLinked(b: Books, ops: seq<Op>)
    requires Linked(b)
    ensures Linked(Run(b, ops))
  {
    hide After, Linked;
    if ops != [] {
      RunKeepsLinked(b, ops[..|ops| - 1]);
      StepKeepsLinked(Run(b, ops[..|ops| - 1]), ops[|ops| - 1]);
    }
  }

  lemma RunsAreLinked(subscriptions: seq<Subscription>, ops: seq<Op>)
    ensures Linked(Run(NewBooks(subscriptions), ops))
  {
    RunKeepsLinked(NewBooks(subscriptions), ops);
  }

  lemma BuiltTotal(lines: seq<Line>, items: seq<LineDraft>, on: Invoice, i: nat)
    requires forall l <- lines :: l.invoice != Some(i)
    ensures TotalFor(lines + BuildLines(items, on, i), i) == S.Sum(items, DraftAmount())
  {
    var built := BuildLines(items, on, i);
    S.SumPost(lines, built, OnInvoice(i));
    SumAgrees(lines, lines, OnInvoice(i), (l: Line) => 0);
    SumNothing(lines);
    SumAgrees(built, items, OnInvoice(i), DraftAmount());
  }

  lemma LinkedNewInvoiceIsFolded(b: Books, op: Op)
    requires op.CreateInvoice? && Apply(b, op).Ok? && Linked(b)
    ensures Folded(After(b, op), |b.invoices|)
            <==> !op.draft || op.items != [] || Asked(b, op.subscription, op.amount, op.items) <= 0
  {
    BuiltTotal(b.lines, op.items, Created(b, op), |b.invoices|);
    hide Linked, Sweep, TotalFor, BuildLines, DraftAmount;
  }

  /** In every reachable state a new invoice's amount is the fold, unless it is a draft with an amount asked for and
      no lines. */
  lemma NewInvoiceIsFolded(subscriptions: seq<Subscription>, earlier: seq<Op>, op: Op)
    requires op.CreateInvoice? && Apply(Run(NewBooks(subscriptions), earlier), op).Ok?
    ensures var b := Run(NewBooks(subscriptions), earlier);
            Folded(After(b, op), |b.invoices|)
            <==> !op.draft || op.items != [] || Asked(b, op.subscription, op.amount, op.items) <= 0
  {
    RunsAreLinked(subscriptions, earlier);
    hide Run, Linked, Folded, Asked;
    LinkedNewInvoiceIsFolded(Run(NewBooks(subscriptions), earlier), op);
  }

  /** An invoice is opened: raised as pending, or finalized. */
  predicate Opens(b: Books, op: Op, i: nat) {
    && Apply(b, op).Ok?
    && ((op.CreateInvoice? && !op.draft && i == |b.invoices|) || op == FinalizeInvoice(i))
  }

  lemma {:induction false} RunKeepsFolded(b: Books, ops: seq<Op>, i: nat)
    requires Folded(b, i)
    ensures Folded(Run(b, ops), i)
  {
    hide After, Folded;
    if ops != [] {
      RunKeepsFolded(b, ops[..|ops| - 1], i);
      StepKeepsFolded(Run(b, ops[..|ops| - 1]), ops[|ops| - 1], i);
    }
  }

  lemma OpenedIsFolded(b: Books, op: Op, i: nat)
    requires Linked(b) && Opens(b, op, i)
    ensures Folded(After(b, op), i)
  {
    if op.CreateInvoice? {
      LinkedNewInvoiceIsFolded(b, op);
    } else {
      FinalizedIsFolded(b, i);
    }
    hide Apply, After, TotalFor, Asked;
  }

  /** In every run: from the moment an invoice is opened, its amount is what its lines come to, whatever happens next. */
  lemma OpenedInvoicesAreFolds(subscriptions: seq<Subscription>, earlier: seq<Op>, op: Op, later: seq<Op>, i: nat)
    requires Opens(Run(NewBooks(subscriptions), earlier), op, i)
    ensures var end := Run(After(Run(NewBooks(subscriptions), earlier), op), later);
            i < |end.invoices| && end.invoices[i].amount == E.Max0(TotalFor(end.lines, i))
  {
    var b := Run(NewBooks(subscriptions), earlier);
    RunsAreLinked(subscriptions, earlier);
    hide Run, Linked, Opens, After, TotalFor;
    OpenedIsFolded(b, op, i);
    RunKeepsFolded(After(b, op), later, i);
  }

  lemma FinalizedIsFolded(b: Books, i: nat)
    requires Apply(b, FinalizeInvoice(i)).Ok?
    ensures Folded(After(b, FinalizeInvoice(i)), i)
  {
    hide TotalFor, Sweep, InvoiceTargets;
  }

  /* ---------------------------- lines stay put ---------------------------- */

  /** A line keeps its owner and amount, and its invoice once it has one; it can only die. */
  predicate Keeps(l: Line, later: Line) {
    && later.customer == l.customer && later.subscription == l.subscription
    && later.amount == l.amount && later.currency == l.currency
    && (l.invoice.Some? ==> later.invoice == l.invoice)
    && (later.live ==> l.live)
  }

  predicate LinesKept(b: Books, later: Books) {
    |b.lines| <= |later.lines| && forall k: nat :: k < |b.lines| ==> Keeps(b.lines[k], later.lines[k])
  }

  predicate OwnersKept(b: Books, later: Books) {
    && |b.invoices| <= |later.invoices|
    && forall i: nat :: i < |b.invoices| ==>
         && later.invoices[i].customer == b.invoices[i].customer
         && later.invoices[i].subscription == b.invoices[i].subscription
  }

  /** A line that gains an invoice was eligible for it. */
  predicate JoinsFairly(b: Books, later: Books) {
    forall k: nat :: k < |b.lines| && k < |later.lines| && b.lines[k].invoice.None? && later.lines[k].invoice.Some? ==>
      var i := later.lines[k].invoice.value;
      && i < |later.invoices|
      && b.lines[k].customer == later.invoices[i].customer
      && (later.invoices[i].subscription.Some? ==>
            b.lines[k].subscription == later.invoices[i].subscription || b.lines[k].subscription.None?)
  }

  lemma StepKeepsLines(b: Books, op: Op)
    ensures LinesKept(b, After(b, op))
  {
    hide TotalFor, InvoiceTargets, Asked, DraftAmount;
  }

  lemma StepKeepsOwners(b: Books, op: Op)
    ensures OwnersKept(b, After(b, op))
  {
    hide TotalFor, InvoiceTargets, Asked, DraftAmount, Sweep, BuildLines;
  }

  lemma StepJoinsFairly(b: Books, op: Op)
    ensures JoinsFairly(b, After(b, op))
  {
    hide TotalFor, InvoiceTargets, Asked, DraftAmount;
  }

  lemma FairInTwoSteps(a: Books, b: Books, c: Books)
    requires LinesKept(a, b) && LinesKept(b, c) && OwnersKept(b, c)
    requires JoinsFairly(a, b) && JoinsFairly(b, c)
    ensures LinesKept(a, c) && JoinsFairly(a, c)
  {
  }

  /** Over any run: a pending line joins at most one invoice, of its own customer and subscription, and stays on it. */
  lemma {:induction false} LinesJoinOneInvoice(b: Books, ops: seq<Op>)
    ensures LinesKept(b, Run(b, ops)) && JoinsFairly(b, Run(b, ops))
  {
    if ops != [] {
      var before := Run(b, ops[..|ops| - 1]);
      LinesJoinOneInvoice(b, ops[..|ops| - 1]);
      StepKeepsLines(before, ops[|ops| - 1]);
      StepKeepsOwners(before, ops[|ops| - 1]);
      StepJoinsFairly(before, ops[|ops| - 1]);
      hide After, LinesKept, OwnersKept, JoinsFairly;
      FairInTwoSteps(b, before, Run(b, ops));
    }
  }

  /* ---------------------------- money on the lines ---------------------------- */

  function OfCustomer(c: nat): Line -> int { (l: Line) => if l.live && l.customer == c then l.amount else 0 }

  /** Everything a customer's lines come to, billed and waiting. */
  function CustomerTotal(lines: seq<Line>, c: nat): int { S.Sum(lines, OfCustomer(c)) }

  function Waiting(c: nat, subscription: Option<nat>): Line -> int {
    (l: Line) => if IsPending(l, c, subscription) then l.amount else 0
  }

  function WaitingTotal(lines: seq<Line>, c: nat, subscription: Option<nat>): int {
    S.Sum(lines, Waiting(c, subscription))
  }

  lemma {:induction false} SumAdds<T>(rows: seq<T>, f: T -> int, g: T -> int, h: T -> int)
    requires forall r <- rows :: h(r) == f(r) + g(r)
    ensures S.Sum(rows, h) == S.Sum(rows, f) + S.Sum(rows, g)
  {
    if rows != [] { SumAdds(rows[..|rows| - 1], f, g, h); }
  }

  /** A sweep moves exactly what was waiting onto the invoice, and costs no customer anything. */
  lemma SweepConserves(lines: seq<Line>, i: nat, customer: nat, subscription: Option<nat>, c: nat)
    ensures var swept := Sweep(lines, i, customer, subscription);
            && CustomerTotal(swept, c) == CustomerTotal(lines, c)
            && TotalFor(swept, i) == TotalFor(lines, i) + WaitingTotal(lines, customer, subscription)
            && WaitingTotal(swept, customer, subscription) == 0
  {
    var swept := Sweep(lines, i, customer, subscription);
    SumAgrees(swept, lines, OfCustomer(c), OfCustomer(c));
    var both := (l: Line) => OnInvoice(i)(l) + Waiting(customer, subscription)(l);
    SumAgrees(swept, lines, OnInvoice(i), both);
    SumAdds(lines, OnInvoice(i), Waiting(customer, subscription), both);
    SumAgrees(swept, swept, Waiting(customer, subscription), (l: Line) => 0);
    SumNothing(swept);
  }

  /** Billing moves lines and never makes or loses money: finalizing and every status change leave a customer's total. */
  lemma BillingConserves(b: Books, op: Op, c: nat)
    requires op.FinalizeInvoice? || op.TransitionInvoice?
    ensures CustomerTotal(After(b, op).lines, c) == CustomerTotal(b.lines, c)
  {
    hide CustomerTotal, TotalFor, InvoiceTargets;
    if op.FinalizeInvoice? && op.invoice < |b.invoices| {
      var invoice := b.invoices[op.invoice];
      SweepConserves(b.lines, op.invoice, invoice.customer, invoice.subscription, c);
    }
  }

  /** Raising an invoice adds its own lines and nothing else, swept lines or not. */
  lemma RaisingAddsItsLines(b: Books, op: Op, c: nat)
    requires op.CreateInvoice? && Apply(b, op).Ok?
    ensures var built := BuildLines(op.items, Created(b, op), |b.invoices|);
            CustomerTotal(After(b, op).lines, c) == CustomerTotal(b.lines, c) + CustomerTotal(built, c)
  {
    var i, created := |b.invoices|, Created(b, op);
    var built := BuildLines(op.items, created, i);
    S.SumPost(b.lines, built, OfCustomer(c));
    SweepConserves(b.lines + built, i, created.customer, op.subscription, c);
    hide CustomerTotal, TotalFor, Sweep, BuildLines, Asked;
  }

  /** An opened invoice comes to its own lines and exactly what was waiting for it. */
  lemma OpeningBillsWhatWaited(b: Books, i: nat)
    requires Apply(b, FinalizeInvoice(i)).Ok?
    ensures var after, invoice := After(b, FinalizeInvoice(i)), b.invoices[i];
            && after.invoices[i].amount
               == E.Max0(TotalFor(b.lines, i) + WaitingTotal(b.lines, invoice.customer, invoice.subscription))
            && WaitingTotal(after.lines, invoice.customer, invoice.subscription) == 0
  {
    SweepConserves(b.lines, i, b.invoices[i].customer, b.invoices[i].subscription, 0);
    hide TotalFor, WaitingTotal, Sweep, InvoiceTargets;
  }

  /* ---------------------------- what an invoice comes to ---------------------------- */

  /** A line priced by the unit. */
  predicate ByTheUnit(d: LineDraft) { d.amount.None? && d.unitAmount.Some? && d.quantity.Some? }

  predicate AllByTheUnit(items: seq<LineDraft>) { forall k: nat :: k < |items| ==> ByTheUnit(items[k]) }

  /** Units times what each costs, over all the lines. */
  function Units(items: seq<LineDraft>): int
    requires AllByTheUnit(items)
  {
    if items == [] then 0 else
    var last := items[|items| - 1];
    Units(items[..|items| - 1]) + last.unitAmount.value * last.quantity.value
  }

  lemma {:induction false} UnitsAreTheSum(items: seq<LineDraft>)
    requires AllByTheUnit(items)
    ensures S.Sum(items, DraftAmount()) == Units(items)
  {
    if items != [] { UnitsAreTheSum(items[..|items| - 1]); }
  }

  lemma {:induction false} UnitsOfMore(items: seq<LineDraft>, more: seq<LineDraft>)
    requires AllByTheUnit(items) && AllByTheUnit(more)
    ensures AllByTheUnit(items + more) && Units(items + more) == Units(items) + Units(more)
  {
    if more == [] {
      assert items + more == items;
    } else {
      var n := |more| - 1;
      assert (items + more)[..|items + more| - 1] == items + more[..n];
      UnitsOfMore(items, more[..n]);
    }
  }

  lemma UnitsOfOne(d: LineDraft)
    requires ByTheUnit(d)
    ensures Units([d]) == d.unitAmount.value * d.quantity.value
  {
    assert [d][..0] == [];
  }

  /** An invoice raised from lines by the unit comes to what its units cost, and what waited for it unless it is a draft. */
  lemma RaisedForItsUnits(subscriptions: seq<Subscription>, earlier: seq<Op>, op: Op)
    requires op.CreateInvoice? && op.items != [] && AllByTheUnit(op.items)
    requires Apply(Run(NewBooks(subscriptions), earlier), op).Ok?
    ensures var b := Run(NewBooks(subscriptions), earlier);
            var after, payer := After(b, op), Created(b, op).customer;
            && |after.invoices| == |b.invoices| + 1
            && after.invoices[|b.invoices|].amount
               == E.Max0(Units(op.items) + if op.draft then 0 else WaitingTotal(b.lines, payer, op.subscription))
  {
    RunsAreLinked(subscriptions, earlier);
    hide Run, Linked, Created, WaitingTotal, Units;
    LinkedRaisedForItsUnits(Run(NewBooks(subscriptions), earlier), op);
  }

  lemma LinkedRaisedForItsUnits(b: Books, op: Op)
    requires op.CreateInvoice? && op.items != [] && AllByTheUnit(op.items) && Apply(b, op).Ok? && Linked(b)
    ensures var after, payer := After(b, op), Created(b, op).customer;
            && |after.invoices| == |b.invoices| + 1
            && after.invoices[|b.invoices|].amount
               == E.Max0(Units(op.items) + if op.draft then 0 else WaitingTotal(b.lines, payer, op.subscription))
  {
    hide Sweep, TotalFor, BuildLines, DraftAmount, WaitingTotal, Units, S.Sum;
    var i, created := |b.invoices|, Created(b, op);
    var lines := b.lines + BuildLines(op.items, created, i);
    UnitsAreTheSum(op.items);
    NoneOfANewInvoice(b);
    hide Linked;
    BuiltTotal(b.lines, op.items, created, i);
    SweepConserves(lines, i, created.customer, op.subscription, 0);
    BuiltLinesDoNotWait(b.lines, op.items, created, i);
  }

  lemma NoneOfANewInvoice(b: Books)
    requires Linked(b)
    ensures forall l <- b.lines :: l.invoice != Some(|b.invoices|)
  {
  }

  lemma BuiltLinesDoNotWait(lines: seq<Line>, items: seq<LineDraft>, on: Invoice, i: nat)
    ensures WaitingTotal(lines + BuildLines(items, on, i), on.customer, on.subscription)
            == WaitingTotal(lines, on.customer, on.subscription)
  {
    var built := BuildLines(items, on, i);
    S.SumPost(lines, built, Waiting(on.customer, on.subscription));
    SumAgrees(built, built, Waiting(on.customer, on.subscription), (l: Line) => 0);
    SumNothing(built);
  }

  /** One line of some units bills what two lines share of them bill. */
  lemma UnitsAddUp(before: seq<LineDraft>, one: LineDraft, two: LineDraft, after: seq<LineDraft>)
    requires AllByTheUnit(before) && AllByTheUnit(after) && ByTheUnit(one) && ByTheUnit(two)
    requires one.unitAmount == two.unitAmount
    ensures var both := one.(quantity := Some(one.quantity.value + two.quantity.value));
            && AllByTheUnit(before + [both] + after) && AllByTheUnit(before + [one, two] + after)
            && Units(before + [both] + after) == Units(before + [one, two] + after)
  {
    var both := one.(quantity := Some(one.quantity.value + two.quantity.value));
    UnitsOfMore(before, [both]);
    UnitsOfMore(before + [both], after);
    UnitsOfMore(before, [one, two]);
    UnitsOfMore(before + [one, two], after);
    UnitsOfMore([one], [two]);
    assert [one] + [two] == [one, two];
    UnitsOfOne(both);
    UnitsOfOne(one);
    UnitsOfOne(two);
    assert both.unitAmount.value * (one.quantity.value + two.quantity.value)
        == one.unitAmount.value * one.quantity.value + two.unitAmount.value * two.quantity.value;
    hide Units;
  }

  /** Who pays an invoice, in what, and what raising it counts: its subscription says, or else the caller. */
  lemma RaisedForItsPayer(b: Books, op: Op)
    requires op.CreateInvoice?
    ensures Apply(b, op).Ok? <==>
            match op.subscription
            case None => op.customer.Some? && op.currency.Some? && |op.currency.value| > 0
            case Some(s) => s < |b.subscriptions| && |b.subscriptions[s].currency| > 0
    ensures Apply(b, op).Ok? ==>
            var i, after := |b.invoices|, After(b, op);
            && |after.invoices| == i + 1 && after.invoices[..i] == b.invoices
            && (var raised := after.invoices[i];
                && raised.subscription == op.subscription && raised.status == (if op.draft then Draft else Pending)
                && match op.subscription
                   case None =>
                     && Some(raised.customer) == op.customer && Some(raised.currency) == op.currency
                     && after.subscriptions == b.subscriptions
                   case Some(s) =>
                     && raised.customer == b.subscriptions[s].customer && raised.currency == b.subscriptions[s].currency
                     && |after.subscriptions| == |b.subscriptions|
                     && forall r: nat :: r < |b.subscriptions| ==>
                          && after.subscriptions[r].customer == b.subscriptions[r].customer
                          && after.subscriptions[r].amount == b.subscriptions[r].amount
                          && after.subscriptions[r].currency == b.subscriptions[r].currency
                          && after.subscriptions[r].invoiceCount
                             == b.subscriptions[r].invoiceCount + if r == s && !op.draft then 1 else 0)
  {
    hide TotalFor, Sweep, BuildLines, Asked;
  }

  /** The line says what its draft does: an amount of its own first, else its units, of which there is one unless it
      says; what else it leaves out, it takes from the invoice. */
  predicate Says(l: Line, d: LineDraft, on: Invoice, i: nat) {
    && l.live && l.invoice == Some(i)
    && (d.amount.Some? ==> l.amount == d.amount.value)
    && (ByTheUnit(d) ==> l.amount == d.unitAmount.value * d.quantity.value)
    && (d.amount.None? && d.quantity.None? && d.unitAmount.Some? ==> l.amount == d.unitAmount.value)
    && (d.amount.None? && d.unitAmount.None? ==> l.amount == 0)
    && Some(l.customer) == (if d.customer.None? then Some(on.customer) else d.customer)
    && l.subscription == (if d.subscription.None? then on.subscription else d.subscription)
    && Some(l.currency) == (if d.currency.None? then Some(on.currency) else d.currency)
  }

  lemma RaisedLinesSay(b: Books, op: Op, k: nat)
    requires op.CreateInvoice? && Apply(b, op).Ok? && k < |op.items|
    ensures var i, after := |b.invoices|, After(b, op);
            && i < |after.invoices| && |after.lines| == |b.lines| + |op.items|
            && Says(after.lines[|b.lines| + k], op.items[k], after.invoices[i], i)
  {
    hide TotalFor, Asked;
    var i, created := |b.invoices|, Created(b, op);
    var built := BuildLines(op.items, created, i);
    assert (b.lines + built)[|b.lines| + k] == built[k];
  }

  /** And so does a line added to a draft; a line added on its own waits, in dollars unless it says. */
  lemma AddedLineSays(b: Books, d: LineDraft, on: Option<nat>)
    requires Apply(b, AddInvoiceItem(d, on)).Ok?
    ensures var after := After(b, AddInvoiceItem(d, on));
            && |after.lines| == |b.lines| + 1
            && (var l := after.lines[|b.lines|];
                if on.Some? then on.value < |b.invoices| && Says(l, d, b.invoices[on.value], on.value)
                else && l.live && l.invoice.None? && d.customer == Some(l.customer) && l.subscription == d.subscription
                     && l.currency == (if d.currency.Some? then d.currency.value else "USD")
                     && Says(l.(invoice := Some(0)), d, Invoice(l.customer, None, Draft, 0, l.currency), 0))
  {
    hide TotalFor;
  }

  /** A waiting line joins an invoice that is opened exactly when it is the customer's and not another subscription's, and
      stays otherwise as it was. */
  lemma WaitingLineJoinsExactlyWhen(b: Books, op: Op, i: nat, k: nat)
    requires Opens(b, op, i) && k < |b.lines| && b.lines[k].live && b.lines[k].invoice.None?
    ensures var l, after := b.lines[k], After(b, op);
            && i < |after.invoices| && k < |after.lines| && after.invoices[i].status == Pending
            && after.lines[k] == l.(invoice := after.lines[k].invoice)
            && (after.lines[k].invoice == Some(i) <==>
                  && l.customer == after.invoices[i].customer
                  && (after.invoices[i].subscription == None || l.subscription == None
                      || l.subscription == after.invoices[i].subscription))
            && (after.lines[k].invoice == Some(i) || after.lines[k].invoice == None)
  {
    hide TotalFor, Asked, InvoiceTargets;
  }

  /** An invoice is finalized from a draft or after a failed attempt, and is then owed. */
  lemma FinalizedExactlyWhen(b: Books, i: nat)
    ensures Apply(b, FinalizeInvoice(i)).Ok? <==> i < |b.invoices| && b.invoices[i].status in {Draft, Failed}
    ensures Apply(b, FinalizeInvoice(i)).Ok? ==>
              var after := After(b, FinalizeInvoice(i));
              && |after.invoices| == |b.invoices| && after.invoices[i].status == Pending
              && after.subscriptions == b.subscriptions
              && forall j: nat :: j < |b.invoices| && j != i ==> after.invoices[j] == b.invoices[j]
  {
    hide TotalFor, Sweep;
  }

  lemma TransitionMovesOneInvoice(b: Books, i: nat, to: InvoiceStatus)
    ensures Apply(b, TransitionInvoice(i, to)).Ok? <==> i < |b.invoices| && InvoiceMoves(b.invoices[i].status, to)
    ensures Apply(b, TransitionInvoice(i, to)).Ok? ==>
              && After(b, TransitionInvoice(i, to)).invoices == b.invoices[i := b.invoices[i].(status := to)]
              && After(b, TransitionInvoice(i, to)) == b.(invoices := After(b, TransitionInvoice(i, to)).invoices)
  {
    hide InvoiceTargets;
  }

  /** A draft with no lines keeps what was asked for, or else what its subscription costs. */
  lemma DraftWithoutLines(b: Books, op: Op)
    requires op.CreateInvoice? && op.draft && op.items == [] && Apply(b, op).Ok?
    ensures var asked := if op.amount.Some? then op.amount.value
                         else if op.subscription.Some? then b.subscriptions[op.subscription.value].amount else 0;
            var after := After(b, op);
            && |after.invoices| == |b.invoices| + 1 && after.lines == b.lines
            && after.invoices[|b.invoices|].amount == if asked < 0 then 0 else asked
  {
  }

  /** What an invoice's lines come to. */
  predicate ComesTo(b: Books, i: nat, total: int) {
    i < |b.invoices| && b.invoices[i].amount == if total < 0 then 0 else total
  }

  /** Adding a line to a draft raises what it comes to by that line, and nothing but a draft takes one. */
  lemma AddedToItsDraft(b: Books, d: LineDraft, on: Option<nat>)
    ensures Apply(b, AddInvoiceItem(d, on)).Ok? <==>
            match on case None => d.customer.Some? case Some(i) => i < |b.invoices| && b.invoices[i].status == Draft
    ensures Apply(b, AddInvoiceItem(d, on)).Ok? ==>
              var after := After(b, AddInvoiceItem(d, on));
              && |after.lines| == |b.lines| + 1 && after.lines[..|b.lines|] == b.lines
              && (on.None? ==> after.invoices == b.invoices)
              && (on.Some? ==> ComesTo(after, on.value, TotalFor(b.lines, on.value) + after.lines[|b.lines|].amount))
  {
    if Apply(b, AddInvoiceItem(d, on)).Ok? && on.Some? {
      var after := After(b, AddInvoiceItem(d, on));
      assert after.lines == b.lines + [after.lines[|b.lines|]];
      S.SumOne(b.lines, after.lines[|b.lines|], OnInvoice(on.value));
    }
    hide S.Sum;
  }

  /** Deleting a line of a draft lowers what it comes to by that line; a waiting line goes without a trace. */
  lemma DeletedFromItsDraft(b: Books, k: nat)
    ensures Apply(b, DeleteInvoiceItem(k)).Ok? <==>
            && k < |b.lines| && b.lines[k].live
            && match b.lines[k].invoice case None => true case Some(i) => i < |b.invoices| && b.invoices[i].status == Draft
    ensures Apply(b, DeleteInvoiceItem(k)).Ok? ==>
              var l, after := b.lines[k], After(b, DeleteInvoiceItem(k));
              && after.lines == b.lines[k := l.(live := false)]
              && (l.invoice.None? ==> after.invoices == b.invoices)
              && (l.invoice.Some? ==> ComesTo(after, l.invoice.value, TotalFor(b.lines, l.invoice.value) - l.amount))
  {
    if Apply(b, DeleteInvoiceItem(k)).Ok? && b.lines[k].invoice.Some? {
      S.SumUpdate(b.lines, k, b.lines[k].(live := false), OnInvoice(b.lines[k].invoice.value));
    }
    hide S.Sum;
  }

  /** Only a draft is edited, and only a failed invoice that is finalized again takes more lines. */
  lemma IssuedAmountsHold(b: Books, op: Op, i: nat)
    requires i < |b.invoices| && b.invoices[i].status != Draft
    requires !(op == FinalizeInvoice(i) && b.invoices[i].status == Failed)
    ensures var after := After(b, op);
            i < |after.invoices| && after.invoices[i].amount == b.invoices[i].amount
            && after.invoices[i].status != Draft
            && (b.invoices[i].status in {Success, Void} ==> after.invoices[i] == b.invoices[i])
  {
    hide TotalFor, Asked, DraftAmount, Sweep, BuildLines;
  }

  /** A paid or voided invoice never changes again. */
  lemma {:induction false} ClosedInvoicesNeverChange(b: Books, ops: seq<Op>, i: nat)
    requires i < |b.invoices| && b.invoices[i].status in {Success, Void}
    ensures i < |Run(b, ops).invoices| && Run(b, ops).invoices[i] == b.invoices[i]
  {
    hide After;
    if ops != [] {
      ClosedInvoicesNeverChange(b, ops[..|ops| - 1], i);
      IssuedAmountsHold(Run(b, ops[..|ops| - 1]), ops[|ops| - 1], i);
    }
  }

  /* ---------------------------- currencies ---------------------------- */

  /** Every line on an invoice is in one currency. */
  predicate InOneCurrency(lines: seq<Line>, i: nat, currency: string) {
    forall l <- lines :: l.live && l.invoice == Some(i) ==> l.currency == currency
  }

  /** Every line that waits for such an invoice is in one currency. */
  predicate WaitingInOneCurrency(lines: seq<Line>, customer: nat, subscription: Option<nat>, currency: string) {
    forall l <- lines :: IsPending(l, customer, subscription) ==> l.currency == currency
  }

  lemma SweepMixesExactlyWhen(lines: seq<Line>, i: nat, customer: nat, subscription: Option<nat>, currency: string)
    ensures InOneCurrency(Sweep(lines, i, customer, subscription), i, currency)
            <==> InOneCurrency(lines, i, currency) && WaitingInOneCurrency(lines, customer, subscription, currency)
  {
    var swept := Sweep(lines, i, customer, subscription);
    if InOneCurrency(swept, i, currency) {
      forall l | l in lines && ((l.live && l.invoice == Some(i)) || IsPending(l, customer, subscription))
        ensures l.currency == currency
      {
        var k :| 0 <= k < |lines| && lines[k] == l;
        assert swept[k] in swept && swept[k].live && swept[k].invoice == Some(i);
      }
    } else {
      var l :| l in swept && l.live && l.invoice == Some(i) && l.currency != currency;
      var k :| 0 <= k < |swept| && swept[k] == l;
      assert lines[k] in lines;
    }
  }

  /**
   * Pending lines are picked without looking at their currency: a finalized invoice adds up one currency exactly
   * when its own lines and the lines waiting for it were all in that currency.
   */
  lemma FinalizedInOneCurrencyExactlyWhen(b: Books, i: nat)
    requires Apply(b, FinalizeInvoice(i)).Ok?
    ensures var invoice, after := b.invoices[i], After(b, FinalizeInvoice(i));
            InOneCurrency(after.lines, i, invoice.currency) <==>
              && InOneCurrency(b.lines, i, invoice.currency)
              && WaitingInOneCurrency(b.lines, invoice.customer, invoice.subscription, invoice.currency)
  {
    var invoice := b.invoices[i];
    SweepMixesExactlyWhen(b.lines, i, invoice.customer, invoice.subscription, invoice.currency);
    hide TotalFor, Sweep, InvoiceTargets, InOneCurrency, WaitingInOneCurrency;
  }

  /** And so is one raised as pending, by its own lines as the caller gave them. */
  lemma RaisedInOneCurrencyExactlyWhen(subscriptions: seq<Subscription>, earlier: seq<Op>, op: Op)
    requires op.CreateInvoice? && !op.draft && Apply(Run(NewBooks(subscriptions), earlier), op).Ok?
    ensures var b := Run(NewBooks(subscriptions), earlier);
            var created, after := Created(b, op), After(b, op);
            InOneCurrency(after.lines, |b.invoices|, created.currency) <==>
              && InOneCurrency(BuildLines(op.items, created, |b.invoices|), |b.invoices|, created.currency)
              && WaitingInOneCurrency(b.lines, created.customer, op.subscription, created.currency)
  {
    RunsAreLinked(subscriptions, earlier);
    hide Run, Linked, InOneCurrency, WaitingInOneCurrency, BuildLines;
    LinkedRaisedInOneCurrency(Run(NewBooks(subscriptions), earlier), op);
  }

  lemma LinkedRaisedInOneCurrency(b: Books, op: Op)
    requires op.CreateInvoice? && !op.draft && Apply(b, op).Ok? && Linked(b)
    ensures var created, after := Created(b, op), After(b, op);
            InOneCurrency(after.lines, |b.invoices|, created.currency) <==>
              && InOneCurrency(BuildLines(op.items, created, |b.invoices|), |b.invoices|, created.currency)
              && WaitingInOneCurrency(b.lines, created.customer, op.subscription, created.currency)
  {
    var i, created := |b.invoices|, Created(b, op);
    var built := BuildLines(op.items, created, i);
    SweepMixesExactlyWhen(b.lines + built, i, created.customer, op.subscription, created.currency);
    assert forall l <- b.lines :: l.invoice != Some(i) by {
      forall l | l in b.lines ensures l.invoice != Some(i) { var k: nat :| k < |b.lines| && b.lines[k] == l; }
    }
    assert forall l <- built :: l.invoice == Some(i);
    hide TotalFor, Sweep, Asked, BuildLines;
  }

  /** A line that names no currency waits in dollars, and is billed as euros. */
  lemma DollarsBilledAsEuros()
    ensures var b := Books([Invoice(0, None, Draft, 0, "EUR")], [], []);
            var added := After(b, AddInvoiceItem(LineDraft(Some(0), None, Some(100), None, None, None), None));
            var finalized := Apply(added, FinalizeInvoice(0));
            && finalized.Ok? && |finalized.value.invoices| == 1 && |finalized.value.lines| == 1
            && finalized.value.invoices[0].amount == 100 && finalized.value.invoices[0].currency == "EUR"
            && finalized.value.lines[0].invoice == Some(0) && finalized.value.lines[0].currency == "USD"
  {
    var line := Line(0, None, None, 100, "USD", true);
    var b := Books([Invoice(0, None, Draft, 0, "EUR")], [], []);
    var added := After(b, AddInvoiceItem(LineDraft(Some(0), None, Some(100), None, None, None), None));
    assert added.lines == [line];
    var swept := Sweep(added.lines, 0, 0, None);
    assert swept == [line.(invoice := Some(0))];
    S.SumPair(swept[0], swept[0], OnInvoice(0));
    hide TotalFor, Sweep;
  }
}
