/** The engine's invoice and subscription-item methods, on tables updated in place. */
module InvoiceEngine {
  import opened Options
  import opened BillingStates
  import S = Storage
  import E = EngineSpec
  import I = Invoicing
  import P = Proration

  class InvoiceBook {
    var invoices: seq<I.Invoice>
    var lines: seq<I.Line>
    var subscriptions: seq<I.Subscription>

    constructor (subscriptions: seq<I.Subscription>)
      ensures Tables() == I.Books([], [], subscriptions)
    {
      this.invoices, this.lines, this.subscriptions := [], [], subscriptions;
    }

    function Tables(): I.Books
      reads this
    {
      I.Books(invoices, lines, subscriptions)
    }

    /** Refused for the expected reason and unchanged, or accepted with the tables expected. */
    ghost predicate Gives(error: Option<E.Error>, before: I.Books, expected: E.Result<I.Books>)
      reads this
    {
      match expected
      case Ok(b) => error.None? && Tables() == b
      case Err(e) => error == Some(e) && Tables() == before
    }

    /* ---------------------------- the line repository ---------------------------- */

    method ListPending(customer: nat, subscription: Option<nat>) returns (ids: seq<nat>)
      ensures forall k: nat :: k in ids <==> k < |lines| && I.IsPending(lines[k], customer, subscription)
      ensures forall j: nat, k: nat :: j < k < |ids| ==> ids[j] < ids[k]
    {
      ids := [];
      for k := 0 to |lines|
        invariant forall j: nat :: j in ids <==> j < k && I.IsPending(lines[j], customer, subscription)
        invariant forall j: nat :: j < |ids| ==> ids[j] < k
        invariant forall i: nat, j: nat :: i < j < |ids| ==> ids[i] < ids[j]
      {
        ghost var before := ids;
        if I.IsPending(lines[k], customer, subscription) { ids := ids + [k]; }
        assert forall j: nat :: j in ids <==> j in before || (j == k && I.IsPending(lines[k], customer, subscription));
      }
    }

    method Total(i: nat) returns (total: int)
      ensures total == I.TotalFor(lines, i)
    {
      total := 0;
      for k := 0 to |lines|
        invariant total == I.TotalFor(lines[..k], i)
      {
        assert lines[..k + 1] == lines[..k] + [lines[k]];
        S.SumOne(lines[..k], lines[k], I.OnInvoice(i));
        if lines[k].live && lines[k].invoice == Some(i) { total := total + lines[k].amount; }
      }
      assert lines[..|lines|] == lines;
    }

    /** Attach every pending line, one row at a time. */
    method SweepPending(i: nat, customer: nat, subscription: Option<nat>)
      modifies this`lines
      ensures lines == I.Sweep(old(lines), i, customer, subscription)
    {
      var pending := ListPending(customer, subscription);
      for n := 0 to |pending|
        invariant |lines| == |old(lines)|
        invariant forall k: nat :: k < |lines| ==>
                    lines[k] == if k in pending[..n] then old(lines)[k].(invoice := Some(i)) else old(lines)[k]
      {
        var k := pending[n];
        assert k in pending && pending[..n + 1] == pending[..n] + [k];
        lines := lines[k := lines[k].(invoice := Some(i))];
      }
      assert pending[..|pending|] == pending;
    }

    method Retotal(i: nat)
      requires i < |invoices|
      modifies this`invoices
      ensures Tables() == I.Retotal(old(Tables()), i)
    {
      var total := Total(i);
      invoices := invoices[i := invoices[i].(amount := if total > 0 then total else 0)];
    }

    /* ---------------------------- the engine's methods ---------------------------- */

    method SumItems(items: seq<I.LineDraft>) returns (total: int)
      ensures total == S.Sum(items, I.DraftAmount())
    {
      total := 0;
      for k := 0 to |items|
        invariant total == S.Sum(items[..k], I.DraftAmount())
      {
        assert items[..k + 1] == items[..k] + [items[k]];
        S.SumOne(items[..k], items[k], I.DraftAmount());
        var d := items[k];
        total := total + if d.amount.Some? then d.amount.value
                         else (if d.unitAmount.Some? then d.unitAmount.value else 0)
                              * (if d.quantity.Some? then d.quantity.value else 1);
      }
      assert items[..|items|] == items;
    }

    method InsertLines(items: seq<I.LineDraft>, created: I.Invoice, i: nat)
      modifies this`lines
      ensures lines == old(lines) + I.BuildLines(items, created, i)
    {
      for k := 0 to |items|
        invariant lines == old(lines) + I.BuildLines(items, created, i)[..k]
      {
        lines := lines + [I.BuildLine(items[k], created.customer, created.subscription, Some(i), created.currency)];
      }
    }

    method CreateInvoice(subscription: Option<nat>, customer: Option<nat>, amount: Option<int>,
                         currency: Option<string>, draft: bool, items: seq<I.LineDraft>)
      returns (error: Option<E.Error>)
      modifies this
      ensures Gives(error, old(Tables()),
                    I.CreateInvoiceStep(old(Tables()), subscription, customer, amount, currency, draft, items))
    {
      hide I.Sweep, I.BuildLines, I.TotalFor, I.DraftAmount, I.CountRaised, S.Sum;
      if subscription.Some? && subscription.value >= |subscriptions| { return Some(E.NotFound); }
      var payer := if subscription.Some? then Some(subscriptions[subscription.value].customer) else customer;
      if payer.None? { return Some(E.ValidationFailed); }
      var money := if subscription.Some? then Some(subscriptions[subscription.value].currency) else currency;
      if money.None? || money.value == "" { return Some(E.ValidationFailed); }
      var asked := E.Default(amount, if subscription.Some? then subscriptions[subscription.value].amount else 0);
      if |items| > 0 { asked := SumItems(items); }
      var created := I.Invoice(payer.value, subscription, if draft then Draft else Pending,
                               if asked > 0 then asked else 0, money.value);
      assert created == I.NewInvoice(Tables(), subscription, payer.value, amount, money.value, draft, items);
      hide I.NewInvoice, I.Asked, I.Raise;
      Raise(created, items);
      return None;
    }

    method Raise(created: I.Invoice, items: seq<I.LineDraft>)
      requires created.amount >= 0
      requires created.subscription.Some? ==> created.subscription.value < |subscriptions|
      modifies this
      ensures Tables() == I.Raise(old(Tables()), created, items)
    {
      hide I.Sweep, I.BuildLines, I.TotalFor, I.Retotal, I.CountRaised;
      var i := |invoices|;
      invoices := invoices + [created];
      InsertLines(items, created, i);
      if created.status != Draft {
        OpenPending(i, created.customer, created.subscription);
      }
    }

    /** Sweep, retotal and count an invoice raised as pending. */
    method OpenPending(i: nat, payer: nat, subscription: Option<nat>)
      requires i < |invoices| && invoices[i].amount >= 0
      requires subscription.Some? ==> subscription.value < |subscriptions|
      modifies this
      ensures Tables() == I.Retotal(old(Tables()).(lines := I.Sweep(old(lines), i, payer, subscription),
                                                   subscriptions := I.CountRaised(old(subscriptions), subscription)), i)
    {
      SweepPending(i, payer, subscription);
      var total := Total(i);
      if total != invoices[i].amount {
        invoices := invoices[i := invoices[i].(amount := if total > 0 then total else 0)];
      }
      if subscription.Some? {
        var s := subscriptions[subscription.value];
        subscriptions := subscriptions[subscription.value := s.(invoiceCount := s.invoiceCount + 1)];
      }
    }

    method FinalizeInvoice(i: nat) returns (error: Option<E.Error>)
      modifies this`invoices, this`lines
      ensures Gives(error, old(Tables()), I.FinalizeInvoiceStep(old(Tables()), i))
    {
      if i >= |invoices| { return Some(E.NotFound); }
      var invoice := invoices[i];
      if !InvoiceMoves(invoice.status, Pending) { return Some(E.InvalidTransition); }
      SweepPending(i, invoice.customer, invoice.subscription);
      var total := Total(i);
      invoices := invoices[i := invoice.(status := Pending, amount := if total > 0 then total else 0)];
      return None;
    }

    method TransitionInvoice(i: nat, to: InvoiceStatus) returns (error: Option<E.Error>)
      modifies this`invoices
      ensures Gives(error, old(Tables()), I.TransitionInvoiceStep(old(Tables()), i, to))
    {
      if i >= |invoices| { return Some(E.NotFound); }
      if !InvoiceMoves(invoices[i].status, to) { return Some(E.InvalidTransition); }
      invoices := invoices[i := invoices[i].(status := to)];
      return None;
    }

    method AddInvoiceItem(d: I.LineDraft, on: Option<nat>) returns (error: Option<E.Error>)
      modifies this`invoices, this`lines
      ensures Gives(error, old(Tables()), I.AddInvoiceItemStep(old(Tables()), d, on))
    {
      if on.Some? {
        if on.value >= |invoices| { return Some(E.NotFound); }
        var invoice := invoices[on.value];
        if invoice.status != Draft { return Some(E.InvalidTransition); }
        lines := lines + [I.BuildLine(d, invoice.customer, invoice.subscription, on, invoice.currency)];
        Retotal(on.value);
        return None;
      }
      if d.customer.None? { return Some(E.ConstraintFailed); }
      lines := lines + [I.BuildLine(d, d.customer.value, None, None, I.LINE_CURRENCY)];
      return None;
    }

    method DeleteInvoiceItem(k: nat) returns (error: Option<E.Error>)
      modifies this`invoices, this`lines
      ensures Gives(error, old(Tables()), I.DeleteInvoiceItemStep(old(Tables()), k))
    {
      if k >= |lines| || !lines[k].live { return Some(E.NotFound); }
      var on := lines[k].invoice;
      if on.Some? {
        if on.value >= |invoices| { return Some(E.NotFound); }
        if invoices[on.value].status != Draft { return Some(E.InvalidTransition); }
      }
      lines := lines[k := lines[k].(live := false)];
      if on.Some? { Retotal(on.value); }
      return None;
    }
  }

  /** One subscription and its items. */
  class SubscriptionEditor {
    var subscription: P.Subscription

    constructor (subscription: P.Subscription)
      ensures this.subscription == subscription
    {
      this.subscription := subscription;
    }

    method FindMatch(existing: seq<P.Item>, w: P.Wanted) returns (r: Option<nat>)
      ensures r == P.Match(existing, w)
    {
      for k := 0 to |existing|
        invariant forall j :: 0 <= j < k ==> !P.Hits(existing[j], w)
      {
        if P.Hits(existing[k], w) { return Some(k); }
      }
      return None;
    }

    /** Match the desired set against the snapshot, updating and inserting rows and drafting lines. */
    method AbsorbWanted(existing: seq<P.Item>, wanted: seq<P.Wanted>, prices: P.Prices, r: real)
      returns (error: Option<E.Error>, p: P.Progress)
      ensures match P.AbsorbAll(existing, wanted, subscription.nextItem, prices, r)
              case Ok(expected) => error.None? && p == expected
              case Err(e) => error == Some(e)
    {
      var items, kept, lines, nextItem := existing, {}, [], subscription.nextItem;
      p := P.Progress(items, kept, lines, nextItem);
      for n := 0 to |wanted|
        invariant p == P.Progress(items, kept, lines, nextItem)
        invariant P.AbsorbAll(existing, wanted[..n], subscription.nextItem, prices, r) == E.Ok(p)
      {
        var w := wanted[n];
        assert wanted[..n + 1][..n] == wanted[..n] && wanted[..n + 1][n] == w;
        var quantity := E.Default(w.quantity, 1);
        var found := FindMatch(existing, w);
        if found.None? {
          if quantity <= 0 {
            AbsorbingFails(existing, wanted, n + 1, subscription.nextItem, prices, r);
            return Some(E.ConstraintFailed), p;
          }
          items := items + [P.Item(nextItem, w.plan, quantity)];
          lines := lines + [P.Worth(prices, r)(P.Item(nextItem, w.plan, quantity))];
          nextItem := nextItem + 1;
        } else {
          var was := existing[found.value];
          kept := kept + {found.value};
          if was.plan != w.plan || was.quantity != quantity {
            if quantity <= 0 {
              AbsorbingFails(existing, wanted, n + 1, subscription.nextItem, prices, r);
              return Some(E.ConstraintFailed), p;
            }
            var item := was.(plan := w.plan, quantity := quantity);
            items := items[found.value := item];
            lines := lines + [-P.Worth(prices, r)(was), P.Worth(prices, r)(item)];
          }
        }
        p := P.Progress(items, kept, lines, nextItem);
      }
      assert wanted[..|wanted|] == wanted;
      return None, p;
    }

    /** Delete what nobody asked to keep, crediting each. */
    method DeleteUnmatched(existing: seq<P.Item>, p: P.Progress, prices: P.Prices, r: real)
      returns (items: seq<P.Item>, credits: seq<int>)
      requires |p.items| >= |existing|
      ensures items == P.Remaining(p.items, |existing|, p.kept)
      ensures credits == P.Credits(existing, p.kept, prices, r)
    {
      hide P.Worth;
      items, credits := [], [];
      for k := 0 to |existing|
        invariant items == P.Remaining(p.items[..k], |existing|, p.kept)
        invariant credits == P.Credits(existing[..k], p.kept, prices, r)
      {
        assert existing[..k + 1][..k] == existing[..k] && p.items[..k + 1][..k] == p.items[..k];
        if k in p.kept {
          items := items + [p.items[k]];
        } else {
          credits := credits + [-P.Worth(prices, r)(existing[k])];
        }
      }
      assert existing[..|existing|] == existing;
      RemainingKeepsAdded(p.items, |existing|, p.kept);
      items := items + p.items[|existing|..];
    }

    method TotalPrice(items: seq<P.Item>, prices: P.Prices) returns (amount: int)
      ensures amount == S.Sum(items, P.Price(prices))
    {
      amount := 0;
      for k := 0 to |items|
        invariant amount == S.Sum(items[..k], P.Price(prices))
      {
        assert items[..k + 1] == items[..k] + [items[k]];
        S.SumOne(items[..k], items[k], P.Price(prices));
        amount := amount + P.Full(prices, items[k].plan, items[k].quantity);
      }
      assert items[..|items|] == items;
    }

    /** One line a price, for the invoice of a renewal. */
    method DraftRenewal(customer: nat, id: nat, currency: string, prices: P.Prices) returns (lines: seq<I.LineDraft>)
      ensures lines == P.RenewalLines(subscription.items, customer, id, currency, prices)
    {
      var items := subscription.items;
      lines := [];
      for k := 0 to |items|
        invariant lines == P.RenewalLines(items[..k], customer, id, currency, prices)
      {
        assert items[..k + 1][..k] == items[..k];
        if items[k].plan in prices {
          lines := lines + [I.LineDraft(Some(customer), Some(id), None, Some(prices[items[k].plan]),
                                        Some(items[k].quantity), Some(currency))];
        }
      }
      assert items[..|items|] == items;
    }

    method UpdateSubscriptionItems(wanted: seq<P.Wanted>, prices: P.Prices, r: real)
      returns (error: Option<E.Error>, lines: seq<int>)
      modifies this
      ensures match P.UpdateItems(old(subscription), wanted, prices, r)
              case Ok(u) => error.None? && subscription == u.subscription && lines == u.lines
              case Err(e) => error == Some(e) && subscription == old(subscription)
    {
      lines := [];
      if subscription.status == Cancelled || subscription.status == Completed { return Some(E.InvalidTransition), lines; }
      var existing := subscription.items;
      if !P.PlansExist(existing, wanted, prices) { return Some(E.NotFound), lines; }
      var p;
      error, p := AbsorbWanted(existing, wanted, prices, r);
      if error.Some? { return; }
      hide P.AbsorbAll, P.Remaining, P.Credits;
      var items, credits := DeleteUnmatched(existing, p, prices, r);
      var amount := TotalPrice(items, prices);
      if |items| == 0 { return Some(E.ValidationFailed), lines; }
      if amount <= 0 { return Some(E.ConstraintFailed), lines; }
      subscription := subscription.(plan := items[0].plan, quantity := items[0].quantity, amount := amount,
                                    items := items, nextItem := p.nextItem);
      lines := p.lines + credits;
    }
  }

  /** Raise the invoice of one period of a subscription. */
  method RaiseRenewal(editor: SubscriptionEditor, book: InvoiceBook, which: nat, prices: P.Prices) returns (error: Option<E.Error>)
    requires which < |book.subscriptions|
    modifies book
    ensures book.Gives(error, old(book.Tables()),
                       if editor.subscription.plan !in prices then E.Err(E.NotFound) else
                       I.Apply(old(book.Tables()), P.Renewal(editor.subscription, old(book.subscriptions)[which].customer, which,
                                                             old(book.subscriptions)[which].currency, prices)))
  {
    hide I.CreateInvoiceStep;
    if editor.subscription.plan !in prices { return Some(E.NotFound); }
    var payer := book.subscriptions[which];
    var lines := editor.DraftRenewal(payer.customer, which, payer.currency, prices);
    error := book.CreateInvoice(Some(which), None, if |lines| > 0 then None else Some(editor.subscription.amount), None, false, lines);
  }

  /** The items added by the update all stay. */
  lemma {:induction false} RemainingKeepsAdded(items: seq<P.Item>, n: nat, kept: set<nat>)
    requires n <= |items|
    ensures P.Remaining(items, n, kept) == P.Remaining(items[..n], n, kept) + items[n..]
    decreases |items|
  {
    if n < |items| {
      var k := |items| - 1;
      RemainingKeepsAdded(items[..k], n, kept);
      assert items[..k][..n] == items[..n] && items[n..] == items[..k][n..] + [items[k]];
    } else {
      assert items[..n] == items && items[n..] == [];
    }
  }

  /** One entry that fails makes the whole update fail with the same error. */
  lemma {:induction false} AbsorbingFails(existing: seq<P.Item>, wanted: seq<P.Wanted>, n: nat, nextItem: nat, prices: P.Prices, r: real)
    requires n <= |wanted| && P.AbsorbAll(existing, wanted[..n], nextItem, prices, r).Err?
    ensures P.AbsorbAll(existing, wanted, nextItem, prices, r) == P.AbsorbAll(existing, wanted[..n], nextItem, prices, r)
    decreases |wanted|
  {
    hide P.Absorb;
    if n < |wanted| {
      assert wanted[..|wanted| - 1][..n] == wanted[..n];
      AbsorbingFails(existing, wanted[..|wanted| - 1], n, nextItem, prices, r);
    } else {
      assert wanted[..n] == wanted;
    }
  }
}
