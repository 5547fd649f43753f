/** Changing what a subscription bills for: credits for what is given up, charges for what replaces it. */
module Proration {
  import opened Options
  import opened BillingStates
  import S = Storage
  import E = EngineSpec
  import I = Invoicing

  datatype Item = Item(id: nat, plan: nat, quantity: int)

  /** One entry of the full desired set. */
  datatype Wanted = Wanted(item: Option<nat>, plan: nat, quantity: Option<int>)

  datatype Subscription = Subscription(
    status: SubscriptionStatus, plan: nat, quantity: int, amount: int, items: seq<Item>, nextItem: nat)

  type Prices = map<nat, int>

  /** What an update commits: the subscription, and the proration lines it owes. */
  datatype Updated = Updated(subscription: Subscription, lines: seq<int>)

  /* ---------------------------- fractions ---------------------------- */

  /** How much of the current period is still to run, clamped to [0, 1]. */
  function RemainingFraction(start: int, next: Option<int>, now: int): (r: real)
    ensures 0.0 <= r <= 1.0
  {
    var end := if next.Some? then next.value else start;
    if end - start <= 0 then 0.0 else
    var share := (end - now) as real / (end - start) as real;
    if share < 0.0 then 0.0 else if share > 1.0 then 1.0 else share
  }

  /** `Math.round`: a half goes up. */
  function Round(x: real): int { (x + 0.5).Floor }

  function Full(prices: Prices, plan: nat, quantity: int): int {
    (if plan in prices then prices[plan] else 0) * quantity
  }

  /** What the rest of the period is worth at a price. */
  function Share(full: int, r: real): int { Round(full as real * r) }

  /** What the rest of the period is worth on an item. */
  function Worth(prices: Prices, r: real): Item -> int {
    (i: Item) => Share(Full(prices, i.plan, i.quantity), r)
  }

  function WorthOf(items: seq<Item>, prices: Prices, r: real): int { S.Sum(items, Worth(prices, r)) }

  function Amount(): int -> int { (x: int) => x }

  function Net(lines: seq<int>): int { S.Sum(lines, Amount()) }

  function Price(prices: Prices): Item -> int { (i: Item) => Full(prices, i.plan, i.quantity) }

  /* ---------------------------- the update ---------------------------- */

  predicate Hits(item: Item, w: Wanted) {
    if w.item.Some? then item.id == w.item.value else item.plan == w.plan
  }

  /** The first item of the snapshot that an entry names, by id or else by plan. */
  function Match(existing: seq<Item>, w: Wanted): (r: Option<nat>)
    ensures r.Some? ==> r.value < |existing| && Hits(existing[r.value], w)
                        && forall j :: 0 <= j < r.value ==> !Hits(existing[j], w)
    ensures r.None? ==> forall j :: 0 <= j < |existing| ==> !Hits(existing[j], w)
  {
    if existing == [] then None else
    var earlier := Match(existing[..|existing| - 1], w);
    if earlier.Some? then earlier
    else if Hits(existing[|existing| - 1], w) then Some(|existing| - 1) else None
  }

  /** The table and the lines part-way through; the snapshot's items keep their places. */
  datatype Progress = Progress(items: seq<Item>, kept: set<nat>, lines: seq<int>, nextItem: nat)

  predicate Unchanged(item: Item, w: Wanted) {
    item.plan == w.plan && item.quantity == E.Default(w.quantity, 1)
  }

  function Absorb(existing: seq<Item>, p: Progress, w: Wanted, prices: Prices, r: real): E.Result<Progress>
    requires |p.items| >= |existing|
  {
    var quantity := E.Default(w.quantity, 1);
    var found := Match(existing, w);
    if found.None? then
      if quantity <= 0 then E.Err(E.ConstraintFailed) else
      var item := Item(p.nextItem, w.plan, quantity);
      E.Ok(Progress(p.items + [item], p.kept, p.lines + [Worth(prices, r)(item)], p.nextItem + 1))
    else
      var k, was := found.value, existing[found.value];
      if Unchanged(was, w) then E.Ok(p.(kept := p.kept + {k}))
      else if quantity <= 0 then E.Err(E.ConstraintFailed) else
      var item := was.(plan := w.plan, quantity := quantity);
      E.Ok(p.(items := p.items[k := item], kept := p.kept + {k},
              lines := p.lines + [-Worth(prices, r)(was), Worth(prices, r)(item)]))
  }

  function AbsorbAll(existing: seq<Item>, wanted: seq<Wanted>, nextItem: nat, prices: Prices, r: real)
    : (result: E.Result<Progress>)
    ensures result.Ok? ==> |result.value.items| >= |existing|
  {
    if wanted == [] then E.Ok(Progress(existing, {}, [], nextItem)) else
    var before :- AbsorbAll(existing, wanted[..|wanted| - 1], nextItem, prices, r);
    Absorb(existing, before, wanted[|wanted| - 1], prices, r)
  }

  /** The items left once the snapshot's unmatched ones are deleted. */
  function Remaining(items: seq<Item>, n: nat, kept: set<nat>): seq<Item> {
    if items == [] then [] else
    var k := |items| - 1;
    Remaining(items[..k], n, kept) + if k < n && k !in kept then [] else [items[k]]
  }

  function Credits(existing: seq<Item>, kept: set<nat>, prices: Prices, r: real): seq<int> {
    if existing == [] then [] else
    var k := |existing| - 1;
    Credits(existing[..k], kept, prices, r) + if k in kept then [] else [-Worth(prices, r)(existing[k])]
  }

  predicate PlansExist(items: seq<Item>, wanted: seq<Wanted>, prices: Prices) {
    (forall i <- items :: i.plan in prices) && (forall w <- wanted :: w.plan in prices)
  }

  function UpdateItems(s: Subscription, wanted: seq<Wanted>, prices: Prices, r: real): E.Result<Updated> {
    if s.status == Cancelled || s.status == Completed then E.Err(E.InvalidTransition)
    else if !PlansExist(s.items, wanted, prices) then E.Err(E.NotFound) else
    var p :- AbsorbAll(s.items, wanted, s.nextItem, prices, r);
    var items := Remaining(p.items, |s.items|, p.kept);
    var amount := S.Sum(items, Price(prices));
    if items == [] then E.Err(E.ValidationFailed)
    else if amount <= 0 then E.Err(E.ConstraintFailed)
    else E.Ok(Updated(s.(plan := items[0].plan, quantity := items[0].quantity, amount := amount,
                         items := items, nextItem := p.nextItem),
                      p.lines + Credits(s.items, p.kept, prices, r)))
  }

  /* ---------------------------- what the lines net to ---------------------------- */

  /** No two entries name the same item of the snapshot. */
  predicate MatchedOnce(existing: seq<Item>, wanted: seq<Wanted>) {
    forall i: nat, j: nat :: i < j < |wanted| && Match(existing, wanted[i]).Some? ==>
      Match(existing, wanted[i]) != Match(existing, wanted[j])
  }

  /** The entry rewrites item `k` of the snapshot. */
  predicate Changes(existing: seq<Item>, w: Wanted, k: nat) {
    k < |existing| && Match(existing, w) == Some(k) && !Unchanged(existing[k], w)
  }

  /** Item `k` as the last entry that rewrites it leaves it: as it was, if none does. */
  function LastChange(existing: seq<Item>, wanted: seq<Wanted>, k: nat): Item
    requires k < |existing|
  {
    if wanted == [] then existing[k] else
    var w := wanted[|wanted| - 1];
    if Changes(existing, w, k) then existing[k].(plan := w.plan, quantity := E.Default(w.quantity, 1))
    else LastChange(existing, wanted[..|wanted| - 1], k)
  }

  /** What an entry overwrites after the `earlier` ones: what they made of its item, less what the snapshot says. */
  function Overwrites(existing: seq<Item>, earlier: seq<Wanted>, w: Wanted, prices: Prices, r: real): int {
    var found := Match(existing, w);
    if found.None? || Unchanged(existing[found.value], w) then 0
    else Worth(prices, r)(LastChange(existing, earlier, found.value)) - Worth(prices, r)(existing[found.value])
  }

  /** What all the entries overwrite, from the snapshot and the entries alone: each credits the snapshot's
      price of its item, whatever an earlier entry has made of it. */
  function Overwritten(existing: seq<Item>, wanted: seq<Wanted>, prices: Prices, r: real): int {
    if wanted == [] then 0 else
    var earlier := wanted[..|wanted| - 1];
    Overwritten(existing, earlier, prices, r) + Overwrites(existing, earlier, wanted[|wanted| - 1], prices, r)
  }

  /** The update's own table holds, in every place of the snapshot, its last change. */
  lemma {:induction false} ItemsAreLastChanges(existing: seq<Item>, wanted: seq<Wanted>, nextItem: nat, prices: Prices, r: real)
    requires AbsorbAll(existing, wanted, nextItem, prices, r).Ok?
    ensures forall k: nat :: k < |existing| ==>
              AbsorbAll(existing, wanted, nextItem, prices, r).value.items[k] == LastChange(existing, wanted, k)
  {
    hide Worth, Match;
    if wanted != [] { ItemsAreLastChanges(existing, wanted[..|wanted| - 1], nextItem, prices, r); }
  }

  lemma AbsorbNets(existing: seq<Item>, earlier: seq<Wanted>, p: Progress, w: Wanted, prices: Prices, r: real)
    requires |p.items| >= |existing| && Absorb(existing, p, w, prices, r).Ok?
    requires forall k: nat :: k < |existing| ==> p.items[k] == LastChange(existing, earlier, k)
    ensures var q := Absorb(existing, p, w, prices, r).value;
            Net(q.lines) - Net(p.lines)
            == WorthOf(q.items, prices, r) - WorthOf(p.items, prices, r) + Overwrites(existing, earlier, w, prices, r)
  {
    hide Share, Match, LastChange;
    var q := Absorb(existing, p, w, prices, r).value;
    var found := Match(existing, w);
    if found.None? {
      var item := q.items[|p.items|];
      S.SumOne(p.items, item, Worth(prices, r));
      S.SumOne(p.lines, Worth(prices, r)(item), Amount());
    } else if !Unchanged(existing[found.value], w) {
      var k := found.value;
      S.SumUpdate(p.items, k, q.items[k], Worth(prices, r));
      var credit, charge := -Worth(prices, r)(existing[k]), Worth(prices, r)(q.items[k]);
      S.SumPost(p.lines, [credit, charge], Amount());
      S.SumPair(credit, charge, Amount());
    }
  }

  lemma {:induction false} AbsorbAllNets(existing: seq<Item>, wanted: seq<Wanted>, nextItem: nat, prices: Prices, r: real)
    requires AbsorbAll(existing, wanted, nextItem, prices, r).Ok?
    ensures var p := AbsorbAll(existing, wanted, nextItem, prices, r).value;
            Net(p.lines) == WorthOf(p.items, prices, r) - WorthOf(existing, prices, r)
                            + Overwritten(existing, wanted, prices, r)
  {
    hide Absorb, WorthOf, Net, Overwrites, LastChange;
    if wanted == [] {
      assert Net([]) == 0 by { NothingNets(); }
    } else {
      var earlier := wanted[..|wanted| - 1];
      AbsorbAllNets(existing, earlier, nextItem, prices, r);
      ItemsAreLastChanges(existing, earlier, nextItem, prices, r);
      AbsorbNets(existing, earlier, AbsorbAll(existing, earlier, nextItem, prices, r).value, wanted[|wanted| - 1], prices, r);
    }
  }

  lemma NothingNets()
    ensures Net([]) == 0
  {
  }

  /** An item nobody matched is still what it was in the snapshot. */
  predicate UnmatchedStand(existing: seq<Item>, p: Progress) {
    |p.items| >= |existing| && forall k: nat :: k < |existing| && k !in p.kept ==> p.items[k] == existing[k]
  }

  lemma {:induction false} UnmatchedAreUntouched(existing: seq<Item>, wanted: seq<Wanted>, nextItem: nat, prices: Prices, r: real)
    requires AbsorbAll(existing, wanted, nextItem, prices, r).Ok?
    ensures UnmatchedStand(existing, AbsorbAll(existing, wanted, nextItem, prices, r).value)
  {
    hide Worth, Match;
    if wanted != [] { UnmatchedAreUntouched(existing, wanted[..|wanted| - 1], nextItem, prices, r); }
  }

  predicate Agree(existing: seq<Item>, items: seq<Item>, kept: set<nat>) {
    |items| >= |existing| && forall k: nat :: k < |existing| && k !in kept ==> items[k] == existing[k]
  }

  lemma WorthGrows(items: seq<Item>, i: Item, prices: Prices, r: real)
    ensures WorthOf(items + [i], prices, r) == WorthOf(items, prices, r) + Worth(prices, r)(i)
  {
    S.SumOne(items, i, Worth(prices, r));
  }

  lemma NetGrows(lines: seq<int>, x: int)
    ensures Net(lines + [x]) == Net(lines) + x
  {
    S.SumOne(lines, x, Amount());
  }

  /** The credits for the deleted items are what the deletion takes from the worth. */
  lemma {:induction false} DeletionNets(existing: seq<Item>, items: seq<Item>, kept: set<nat>, prices: Prices, r: real)
    requires Agree(existing, items, kept)
    ensures Net(Credits(existing, kept, prices, r))
            == WorthOf(Remaining(items, |existing|, kept), prices, r) - WorthOf(items, prices, r)
    decreases |items|
  {
    hide Worth, WorthOf, Net;
    if items == [] {
      assert existing == [] && Remaining(items, 0, kept) == items;
      assert Credits(existing, kept, prices, r) == [];
      NothingNets();
    } else {
      var k := |items| - 1;
      assert items == items[..k] + [items[k]];
      WorthGrows(items[..k], items[k], prices, r);
      WorthGrows(Remaining(items[..k], |existing|, kept), items[k], prices, r);
      if k < |existing| {
        DeletionNets(existing[..k], items[..k], kept, prices, r);
        RemainingIgnoresLater(items[..k], k, |existing|, kept);
        NetGrows(Credits(existing[..k], kept, prices, r), -Worth(prices, r)(existing[k]));
        assert Remaining(items[..k], |existing|, kept) + [] == Remaining(items[..k], |existing|, kept);
        assert Credits(existing[..k], kept, prices, r) + [] == Credits(existing[..k], kept, prices, r);
      } else {
        DeletionNets(existing, items[..k], kept, prices, r);
      }
    }
  }

  lemma {:induction false} RemainingIgnoresLater(items: seq<Item>, n: nat, m: nat, kept: set<nat>)
    requires |items| <= n <= m
    ensures Remaining(items, n, kept) == Remaining(items, m, kept)
  {
    if items != [] { RemainingIgnoresLater(items[..|items| - 1], n, m, kept); }
  }

  /** For every update: the lines net to the change in worth and what its entries overwrite besides, so to the
      change alone exactly when they overwrite nothing on balance. */
  lemma LinesNet(s: Subscription, wanted: seq<Wanted>, prices: Prices, r: real)
    requires UpdateItems(s, wanted, prices, r).Ok?
    ensures var u := UpdateItems(s, wanted, prices, r).value;
            var change := WorthOf(u.subscription.items, prices, r) - WorthOf(s.items, prices, r);
            && Net(u.lines) == change + Overwritten(s.items, wanted, prices, r)
            && (Net(u.lines) == change <==> Overwritten(s.items, wanted, prices, r) == 0)
  {
    var p := AbsorbAll(s.items, wanted, s.nextItem, prices, r).value;
    AbsorbAllNets(s.items, wanted, s.nextItem, prices, r);
    UnmatchedAreUntouched(s.items, wanted, s.nextItem, prices, r);
    hide WorthOf, AbsorbAll, Remaining, Credits;
    DeletionNets(s.items, p.items, p.kept, prices, r);
    S.SumPost(p.lines, Credits(s.items, p.kept, prices, r), Amount());
  }

  lemma {:induction false} UnmatchedStands(existing: seq<Item>, wanted: seq<Wanted>, k: nat)
    requires k < |existing| && forall i: nat :: i < |wanted| ==> Match(existing, wanted[i]) != Some(k)
    ensures LastChange(existing, wanted, k) == existing[k]
  {
    hide Match;
    if wanted != [] { UnmatchedStands(existing, wanted[..|wanted| - 1], k); }
  }

  lemma {:induction false} MatchedOnceOverwritesNothing(existing: seq<Item>, wanted: seq<Wanted>, prices: Prices, r: real)
    requires MatchedOnce(existing, wanted)
    ensures Overwritten(existing, wanted, prices, r) == 0
  {
    hide Worth, Match;
    if wanted != [] {
      var n := |wanted| - 1;
      MatchedOnceOverwritesNothing(existing, wanted[..n], prices, r);
      var found := Match(existing, wanted[n]);
      if found.Some? && found.value < |existing| { UnmatchedStands(existing, wanted[..n], found.value); }
    }
  }

  /** An update that matches each item at most once raises exactly the change in worth. */
  lemma LinesNetToTheChange(s: Subscription, wanted: seq<Wanted>, prices: Prices, r: real)
    requires UpdateItems(s, wanted, prices, r).Ok? && MatchedOnce(s.items, wanted)
    ensures var u := UpdateItems(s, wanted, prices, r).value;
            Net(u.lines) == WorthOf(u.subscription.items, prices, r) - WorthOf(s.items, prices, r)
  {
    LinesNet(s, wanted, prices, r);
    MatchedOnceOverwritesNothing(s.items, wanted, prices, r);
    hide UpdateItems, Overwritten;
  }

  /* ---------------------------- many updates at one instant ---------------------------- */

  /** The subscription after a sequence of updates at one instant; a refused update changes nothing. */
  function UpdateAll(s: Subscription, changes: seq<seq<Wanted>>, prices: Prices, r: real): Updated {
    if changes == [] then Updated(s, []) else
    var before := UpdateAll(s, changes[..|changes| - 1], prices, r);
    var u := UpdateItems(before.subscription, changes[|changes| - 1], prices, r);
    if u.Err? then before else Updated(u.value.subscription, before.lines + u.value.lines)
  }

  /** Each update matches each item it finds at most once. */
  predicate AllMatchOnce(s: Subscription, changes: seq<seq<Wanted>>, prices: Prices, r: real) {
    changes == [] ||
    (var before := changes[..|changes| - 1];
     && AllMatchOnce(s, before, prices, r)
     && MatchedOnce(UpdateAll(s, before, prices, r).subscription.items, changes[|changes| - 1]))
  }

  /** However the items got there, the lines net to the worth at the end less the worth at the start. */
  lemma {:induction false} ProrationIsPathIndependent(s: Subscription, changes: seq<seq<Wanted>>, prices: Prices, r: real)
    requires AllMatchOnce(s, changes, prices, r)
    ensures var u := UpdateAll(s, changes, prices, r);
            Net(u.lines) == WorthOf(u.subscription.items, prices, r) - WorthOf(s.items, prices, r)
  {
    hide UpdateItems, MatchedOnce, WorthOf, Net;
    if changes == [] {
      NothingNets();
    } else {
      var before := UpdateAll(s, changes[..|changes| - 1], prices, r);
      var u := UpdateItems(before.subscription, changes[|changes| - 1], prices, r);
      ProrationIsPathIndependent(s, changes[..|changes| - 1], prices, r);
      if u.Ok? {
        LinesNetToTheChange(before.subscription, changes[|changes| - 1], prices, r);
        NetPost(before.lines, u.value.lines);
      }
    }
  }

  lemma NetPost(lines: seq<int>, more: seq<int>)
    ensures Net(lines + more) == Net(lines) + Net(more)
  {
    S.SumPost(lines, more, Amount());
  }

  /** What an item is worth goes by this alone; the id, and the place among the items, do not matter. */
  datatype Shape = Shape(plan: nat, quantity: int)

  function ShapeOf(i: Item): Shape { Shape(i.plan, i.quantity) }

  function Shapes(items: seq<Item>): multiset<Shape> {
    if items == [] then multiset{} else Shapes(items[..|items| - 1]) + multiset{ShapeOf(items[|items| - 1])}
  }

  lemma {:induction false} ShapesPost(items: seq<Item>, more: seq<Item>)
    ensures Shapes(items + more) == Shapes(items) + Shapes(more)
  {
    hide ShapeOf;
    if more == [] {
      assert items + more == items;
    } else {
      var n := |more| - 1;
      assert (items + more)[..|items + more| - 1] == items + more[..n];
      ShapesPost(items, more[..n]);
    }
  }

  lemma {:induction false} ShapeIsThere(items: seq<Item>, shape: Shape) returns (k: nat)
    requires shape in Shapes(items)
    ensures k < |items| && ShapeOf(items[k]) == shape
  {
    var n := |items| - 1;
    if ShapeOf(items[n]) == shape { k := n; } else { k := ShapeIsThere(items[..n], shape); }
  }

  /** Taking one item out takes its shape and its worth. */
  lemma WithoutOne(items: seq<Item>, k: nat, prices: Prices, r: real)
    requires k < |items|
    ensures var rest := items[..k] + items[k + 1..];
            && Shapes(items) == Shapes(rest) + multiset{ShapeOf(items[k])}
            && WorthOf(items, prices, r) == WorthOf(rest, prices, r) + Worth(prices, r)(items[k])
  {
    hide Worth, ShapeOf;
    var before, item, after := items[..k], items[k], items[k + 1..];
    assert items == before + ([item] + after);
    ShapesPost(before, [item] + after);
    ShapesPost([item], after);
    ShapesPost(before, after);
    assert Shapes([item]) == multiset{ShapeOf(item)} by { assert [item][..0] == []; }
    S.SumPost(before, [item] + after, Worth(prices, r));
    S.SumPost([item], after, Worth(prices, r));
    S.SumPost(before, after, Worth(prices, r));
    S.SumPair(item, item, Worth(prices, r));
    hide Shapes, S.Sum;
  }

  lemma OneLess<T>(all: multiset<T>, a: multiset<T>, b: multiset<T>, x: T)
    requires all == a + multiset{x} == b + multiset{x}
    ensures a == b
  {
    assert a == all - multiset{x} == b;
  }

  lemma SameShapeSameWorth(i: Item, j: Item, prices: Prices, r: real)
    requires ShapeOf(i) == ShapeOf(j)
    ensures Worth(prices, r)(i) == Worth(prices, r)(j)
  {
    assert Full(prices, i.plan, i.quantity) == Full(prices, j.plan, j.quantity);
  }

  lemma {:induction false} SameShapesSameWorth(a: seq<Item>, b: seq<Item>, prices: Prices, r: real)
    requires Shapes(a) == Shapes(b)
    ensures WorthOf(a, prices, r) == WorthOf(b, prices, r)
  {
    hide Worth, WorthOf, ShapeOf;
    if a == [] {
      assert b == [];
    } else {
      var n := |a| - 1;
      assert Shapes(a) == Shapes(a[..n]) + multiset{ShapeOf(a[n])};
      hide Shapes;
      WithoutOne(a, n, prices, r);
      assert a[..n] + a[n + 1..] == a[..n];
      assert ShapeOf(a[n]) in Shapes(a);
      var k := ShapeIsThere(b, ShapeOf(a[n]));
      WithoutOne(b, k, prices, r);
      SameShapeSameWorth(a[n], b[k], prices, r);
      OneLess(Shapes(a), Shapes(a[..n]), Shapes(b[..k] + b[k + 1..]), ShapeOf(a[n]));
      SameShapesSameWorth(a[..n], b[..k] + b[k + 1..], prices, r);
    }
  }

  /** So a change and its undo cancel to the last minor unit, wherever the items end up and under whatever ids. */
  lemma ChangeAndUndoCancel(s: Subscription, changes: seq<seq<Wanted>>, prices: Prices, r: real)
    requires AllMatchOnce(s, changes, prices, r)
    requires Shapes(UpdateAll(s, changes, prices, r).subscription.items) == Shapes(s.items)
    ensures Net(UpdateAll(s, changes, prices, r).lines) == 0
  {
    ProrationIsPathIndependent(s, changes, prices, r);
    hide UpdateAll, AllMatchOnce;
    SameShapesSameWorth(UpdateAll(s, changes, prices, r).subscription.items, s.items, prices, r);
  }

  const ONE_ITEM := [Item(0, 0, 1)]

  const CHANGED_TWICE := [Wanted(Some(0), 1, None), Wanted(Some(0), 2, None)]

  const THREE_PRICES: Prices := map[0 := 100, 1 := 200, 2 := 300]

  lemma WholePeriodWorth()
    ensures Worth(THREE_PRICES, 1.0)(Item(0, 0, 1)) == 100
    ensures Worth(THREE_PRICES, 1.0)(Item(0, 1, 1)) == 200
    ensures Worth(THREE_PRICES, 1.0)(Item(0, 2, 1)) == 300
  {
  }

  lemma BothChangesHitTheItem()
    ensures Match(ONE_ITEM, CHANGED_TWICE[0]) == Some(0) && Match(ONE_ITEM, CHANGED_TWICE[1]) == Some(0)
  {
    assert Hits(ONE_ITEM[0], CHANGED_TWICE[0]) && Hits(ONE_ITEM[0], CHANGED_TWICE[1]);
  }

  const AFTER_ONE := Progress([Item(0, 1, 1)], {0}, [-100, 200], 1)

  const AFTER_TWO := Progress([Item(0, 2, 1)], {0}, [-100, 200, -100, 300], 1)

  lemma FirstChange()
    ensures Absorb(ONE_ITEM, Progress(ONE_ITEM, {}, [], 1), CHANGED_TWICE[0], THREE_PRICES, 1.0) == E.Ok(AFTER_ONE)
  {
    WholePeriodWorth();
    BothChangesHitTheItem();
    hide Match, Worth;
    assert ONE_ITEM[0 := Item(0, 1, 1)] == AFTER_ONE.items;
    assert [] + [-100, 200] == AFTER_ONE.lines;
    assert {} + {0} == AFTER_ONE.kept;
  }

  lemma SecondChange()
    ensures Absorb(ONE_ITEM, AFTER_ONE, CHANGED_TWICE[1], THREE_PRICES, 1.0) == E.Ok(AFTER_TWO)
  {
    WholePeriodWorth();
    BothChangesHitTheItem();
    hide Match, Worth;
    assert AFTER_ONE.items[0 := Item(0, 2, 1)] == AFTER_TWO.items;
    assert AFTER_ONE.lines + [-100, 300] == AFTER_TWO.lines;
    assert AFTER_ONE.kept + {0} == AFTER_TWO.kept;
  }

  lemma AbsorbedTwice()
    ensures AbsorbAll(ONE_ITEM, CHANGED_TWICE, 1, THREE_PRICES, 1.0) == E.Ok(AFTER_TWO)
  {
    FirstChange();
    SecondChange();
    hide Absorb;
    var first := [CHANGED_TWICE[0]];
    assert CHANGED_TWICE[..1] == first && first[..0] == [];
    assert AbsorbAll(ONE_ITEM, first[..0], 1, THREE_PRICES, 1.0) == E.Ok(Progress(ONE_ITEM, {}, [], 1));
    assert AbsorbAll(ONE_ITEM, first, 1, THREE_PRICES, 1.0) == E.Ok(AFTER_ONE);
  }

  lemma OneItemLeft()
    ensures Credits(ONE_ITEM, {0}, THREE_PRICES, 1.0) == []
    ensures Remaining(AFTER_TWO.items, 1, {0}) == AFTER_TWO.items
    ensures S.Sum(AFTER_TWO.items, Price(THREE_PRICES)) == 300
  {
    assert ONE_ITEM[..0] == [] && AFTER_TWO.items[..0] == [];
  }

  lemma WorthBeforeAndAfter()
    ensures WorthOf(AFTER_TWO.items, THREE_PRICES, 1.0) == 300 && WorthOf(ONE_ITEM, THREE_PRICES, 1.0) == 100
  {
    WholePeriodWorth();
    hide Worth;
    S.SumPair(Item(0, 2, 1), Item(0, 2, 1), Worth(THREE_PRICES, 1.0));
    S.SumPair(Item(0, 0, 1), Item(0, 0, 1), Worth(THREE_PRICES, 1.0));
  }

  lemma SecondChangeOverwritesTheFirst()
    ensures Overwritten(ONE_ITEM, CHANGED_TWICE, THREE_PRICES, 1.0) == 100
  {
    WholePeriodWorth();
    BothChangesHitTheItem();
    hide Match, Worth;
    var first := [CHANGED_TWICE[0]];
    assert CHANGED_TWICE[..1] == first && first[..0] == [];
    assert LastChange(ONE_ITEM, [], 0) == Item(0, 0, 1);
    assert LastChange(ONE_ITEM, first, 0) == Item(0, 1, 1);
    assert Overwritten(ONE_ITEM, first[..0], THREE_PRICES, 1.0) == 0;
    assert Overwritten(ONE_ITEM, first, THREE_PRICES, 1.0) == 0;
  }

  /** Named twice, an item is credited twice at its old price, and the lines drift by what the first change was worth. */
  lemma NamedTwiceDrifts()
    ensures var s := Subscription(Active, 0, 1, 100, ONE_ITEM, 1);
            var result := UpdateItems(s, CHANGED_TWICE, THREE_PRICES, 1.0);
            && result.Ok? && Net(result.value.lines) == 300
            && WorthOf(result.value.subscription.items, THREE_PRICES, 1.0) - WorthOf(s.items, THREE_PRICES, 1.0) == 200
            && Overwritten(s.items, CHANGED_TWICE, THREE_PRICES, 1.0) == 100
  {
    AbsorbedTwice();
    OneItemLeft();
    WorthBeforeAndAfter();
    SecondChangeOverwritesTheFirst();
    hide AbsorbAll, Credits, Remaining, Net, WorthOf, Price, Overwritten;
    assert PlansExist(ONE_ITEM, CHANGED_TWICE, THREE_PRICES);
    LinesNet(Subscription(Active, 0, 1, 100, ONE_ITEM, 1), CHANGED_TWICE, THREE_PRICES, 1.0);
  }

  /* ---------------------------- amounts ---------------------------- */

  predicate PlansPriced(items: seq<Item>, prices: Prices) { forall i <- items :: i.plan in prices }

  /** What items cost for a whole period, written out: each plan's price times the quantity. */
  function Bill(items: seq<Item>, prices: Prices): int
    requires PlansPriced(items, prices)
  {
    if items == [] then 0 else
    var last := items[|items| - 1];
    Bill(items[..|items| - 1], prices) + prices[last.plan] * last.quantity
  }

  lemma {:induction false} BillIsTheSum(items: seq<Item>, prices: Prices)
    requires PlansPriced(items, prices)
    ensures S.Sum(items, Price(prices)) == Bill(items, prices)
  {
    if items != [] { BillIsTheSum(items[..|items| - 1], prices); }
  }

  /** The stored amount is price times quantity over the stored items, and the head item names the plan. */
  predicate Priced(s: Subscription, prices: Prices) {
    && s.items != [] && PlansPriced(s.items, prices) && s.amount == Bill(s.items, prices) > 0
    && s.plan == s.items[0].plan && s.quantity == s.items[0].quantity
  }

  lemma {:induction false} AbsorbedPlansExist(existing: seq<Item>, wanted: seq<Wanted>, nextItem: nat, prices: Prices, r: real)
    requires PlansExist(existing, wanted, prices) && AbsorbAll(existing, wanted, nextItem, prices, r).Ok?
    ensures PlansPriced(AbsorbAll(existing, wanted, nextItem, prices, r).value.items, prices)
  {
    hide Worth, Match;
    if wanted != [] { AbsorbedPlansExist(existing, wanted[..|wanted| - 1], nextItem, prices, r); }
  }

  lemma {:induction false} RemainingArePart(items: seq<Item>, n: nat, kept: set<nat>)
    ensures forall i <- Remaining(items, n, kept) :: i in items
  {
    if items != [] { RemainingArePart(items[..|items| - 1], n, kept); }
  }

  lemma UpdatesArePriced(s: Subscription, wanted: seq<Wanted>, prices: Prices, r: real)
    requires UpdateItems(s, wanted, prices, r).Ok?
    ensures PlansPriced(s.items, prices) && Priced(UpdateItems(s, wanted, prices, r).value.subscription, prices)
  {
    var p := AbsorbAll(s.items, wanted, s.nextItem, prices, r).value;
    AbsorbedPlansExist(s.items, wanted, s.nextItem, prices, r);
    RemainingArePart(p.items, |s.items|, p.kept);
    BillIsTheSum(Remaining(p.items, |s.items|, p.kept), prices);
    hide AbsorbAll, Remaining, Price, Bill, S.Sum;
  }

  lemma {:induction false} AmountIsTheSum(s: Subscription, changes: seq<seq<Wanted>>, prices: Prices, r: real)
    requires Priced(s, prices)
    ensures Priced(UpdateAll(s, changes, prices, r).subscription, prices)
  {
    hide UpdateItems, Priced;
    if changes != [] {
      var before := UpdateAll(s, changes[..|changes| - 1], prices, r);
      AmountIsTheSum(s, changes[..|changes| - 1], prices, r);
      if UpdateItems(before.subscription, changes[|changes| - 1], prices, r).Ok? {
        UpdatesArePriced(before.subscription, changes[|changes| - 1], prices, r);
      }
    }
  }

  /** An item more, or an item with more seats, is that much more on the bill. */
  lemma {:induction false} BillOfMore(items: seq<Item>, more: seq<Item>, prices: Prices)
    requires PlansPriced(items, prices) && PlansPriced(more, prices)
    ensures PlansPriced(items + more, prices)
    ensures Bill(items + more, prices) == Bill(items, prices) + Bill(more, prices)
  {
    if more == [] {
      assert items + more == items;
    } else {
      var n := |more| - 1;
      assert (items + more)[..|items + more| - 1] == items + more[..n];
      BillOfMore(items, more[..n], prices);
    }
  }

  lemma BillOfOne(item: Item, prices: Prices)
    requires item.plan in prices
    ensures Bill([item], prices) == prices[item.plan] * item.quantity
  {
    assert [item][..0] == [];
  }

  /** Raising one quantity by `d` raises the stored amount by `d` times the plan's price, and splitting an item's seats
      over two items of its plan leaves it. */
  lemma SeatsAddUp(s: Subscription, t: Subscription, before: seq<Item>, item: Item, after: seq<Item>, d: int,
                   split: Item, prices: Prices)
    requires Priced(s, prices) && s.items == before + [item] + after
    requires Priced(t, prices) && split.plan == item.plan
    ensures t.items == before + [item.(quantity := item.quantity + d)] + after
            ==> t.amount == s.amount + d * prices[item.plan]
    ensures t.items == before + [item.(quantity := item.quantity - split.quantity), split] + after
            ==> t.amount == s.amount
  {
    hide Bill;
    assert forall i <- before + [item] + after :: i in s.items;
    assert item in s.items && PlansPriced(before, prices) && PlansPriced(after, prices);
    BillAround(before, [item], after, prices);
    BillOfOne(item, prices);
    var raised := item.(quantity := item.quantity + d);
    BillAround(before, [raised], after, prices);
    BillOfOne(raised, prices);
    var rest := item.(quantity := item.quantity - split.quantity);
    BillAround(before, [rest, split], after, prices);
    BillOfMore([rest], [split], prices);
    BillOfOne(rest, prices);
    BillOfOne(split, prices);
    assert [rest] + [split] == [rest, split];
    Distributes(prices[item.plan], item.quantity, d);
    Distributes(prices[item.plan], rest.quantity, split.quantity);
  }

  lemma Distributes(price: int, q: int, d: int)
    ensures price * (q + d) == price * q + price * d
  {
  }

  lemma BillAround(before: seq<Item>, items: seq<Item>, after: seq<Item>, prices: Prices)
    requires PlansPriced(before, prices) && PlansPriced(items, prices) && PlansPriced(after, prices)
    ensures PlansPriced(before + items + after, prices)
    ensures Bill(before + items + after, prices) == Bill(before, prices) + Bill(items, prices) + Bill(after, prices)
  {
    BillOfMore(before, items, prices);
    BillOfMore(before + items, after, prices);
  }

  /* ---------------------------- ids ---------------------------- */

  /** No two items share an id, and the next one is unused. */
  predicate IdsApart(items: seq<Item>, next: nat) {
    && (forall j: nat, k: nat :: j < k < |items| ==> items[j].id != items[k].id)
    && (forall i <- items :: i.id < next)
  }

  lemma AbsorbKeepsIds(existing: seq<Item>, p: Progress, w: Wanted, prices: Prices, r: real)
    requires |p.items| >= |existing| && Absorb(existing, p, w, prices, r).Ok? && IdsApart(p.items, p.nextItem)
    requires forall k: nat :: k < |existing| ==> p.items[k].id == existing[k].id
    ensures var q := Absorb(existing, p, w, prices, r).value;
            && IdsApart(q.items, q.nextItem)
            && forall k: nat :: k < |existing| ==> q.items[k].id == existing[k].id
  {
    hide Worth, Match;
  }

  lemma {:induction false} AllAbsorbedKeepIds(existing: seq<Item>, wanted: seq<Wanted>, nextItem: nat, prices: Prices, r: real)
    requires AbsorbAll(existing, wanted, nextItem, prices, r).Ok? && IdsApart(existing, nextItem)
    ensures var p := AbsorbAll(existing, wanted, nextItem, prices, r).value;
            && IdsApart(p.items, p.nextItem)
            && forall k: nat :: k < |existing| ==> p.items[k].id == existing[k].id
  {
    hide Absorb, IdsApart;
    if wanted != [] {
      var n := |wanted| - 1;
      AllAbsorbedKeepIds(existing, wanted[..n], nextItem, prices, r);
      AbsorbKeepsIds(existing, AbsorbAll(existing, wanted[..n], nextItem, prices, r).value, wanted[n], prices, r);
    }
  }

  lemma {:induction false} RemainingKeepsIds(items: seq<Item>, n: nat, kept: set<nat>, next: nat)
    requires IdsApart(items, next)
    ensures IdsApart(Remaining(items, n, kept), next)
  {
    if items != [] {
      var k := |items| - 1;
      LastIdApart(items, next);
      hide IdsApart;
      RemainingKeepsIds(items[..k], n, kept, next);
      RemainingArePart(items[..k], n, kept);
      OneMoreId(Remaining(items[..k], n, kept), items[k], next);
      assert Remaining(items[..k], n, kept) + [] == Remaining(items[..k], n, kept);
    }
  }

  lemma LastIdApart(items: seq<Item>, next: nat)
    requires IdsApart(items, next) && items != []
    ensures var k := |items| - 1;
            IdsApart(items[..k], next) && items[k].id < next && forall i <- items[..k] :: i.id != items[k].id
  {
    var k := |items| - 1;
    assert items[k] in items;
    forall i | i in items[..k] ensures i.id != items[k].id && i.id < next {
      var j: nat :| j < k && items[..k][j] == i;
      assert items[j] == i && items[j] in items;
    }
  }

  lemma OneMoreId(items: seq<Item>, item: Item, next: nat)
    ensures IdsApart(items, next) && item.id < next && (forall i <- items :: i.id != item.id) ==> IdsApart(items + [item], next)
  {
  }

  /** However a subscription is changed, its items keep ids of their own, and no id is given out twice. */
  lemma {:induction false} IdsStayApart(s: Subscription, changes: seq<seq<Wanted>>, prices: Prices, r: real)
    requires IdsApart(s.items, s.nextItem)
    ensures var t := UpdateAll(s, changes, prices, r).subscription;
            IdsApart(t.items, t.nextItem) && t.nextItem >= s.nextItem
  {
    if changes != [] {
      var n := |changes| - 1;
      IdsStayApart(s, changes[..n], prices, r);
      var before := UpdateAll(s, changes[..n], prices, r).subscription;
      if UpdateItems(before, changes[n], prices, r).Ok? { UpdateKeepsIds(before, changes[n], prices, r); }
      hide UpdateItems, IdsApart;
    }
  }

  lemma UpdateKeepsIds(s: Subscription, wanted: seq<Wanted>, prices: Prices, r: real)
    requires UpdateItems(s, wanted, prices, r).Ok? && IdsApart(s.items, s.nextItem)
    ensures var t := UpdateItems(s, wanted, prices, r).value.subscription;
            IdsApart(t.items, t.nextItem) && t.nextItem >= s.nextItem
  {
    var p := AbsorbAll(s.items, wanted, s.nextItem, prices, r).value;
    AllAbsorbedKeepIds(s.items, wanted, s.nextItem, prices, r);
    IdsOnlyGrow(s.items, wanted, s.nextItem, prices, r);
    hide AbsorbAll, IdsApart, Remaining, Price, S.Sum, Credits;
    RemainingKeepsIds(p.items, |s.items|, p.kept, p.nextItem);
  }

  lemma {:induction false} IdsOnlyGrow(existing: seq<Item>, wanted: seq<Wanted>, nextItem: nat, prices: Prices, r: real)
    requires AbsorbAll(existing, wanted, nextItem, prices, r).Ok?
    ensures AbsorbAll(existing, wanted, nextItem, prices, r).value.nextItem >= nextItem
  {
    hide Worth, Match;
    if wanted != [] { IdsOnlyGrow(existing, wanted[..|wanted| - 1], nextItem, prices, r); }
  }

  /* ---------------------------- what was asked for ---------------------------- */

  function Asked(w: Wanted): Shape { Shape(w.plan, E.Default(w.quantity, 1)) }

  function AllAsked(wanted: seq<Wanted>): multiset<Shape> {
    if wanted == [] then multiset{} else AllAsked(wanted[..|wanted| - 1]) + multiset{Asked(wanted[|wanted| - 1])}
  }

  /** The places of the snapshot that entries have named. */
  predicate KeptByName(existing: seq<Item>, wanted: seq<Wanted>, kept: set<nat>) {
    forall k <- kept :: exists j: nat :: j < |wanted| && Match(existing, wanted[j]) == Some(k)
  }

  /** Keeping one more of the snapshot's items, as it now is, keeps its shape too. */
  lemma {:induction false} KeepingOneMore(items: seq<Item>, n: nat, kept: set<nat>, k: nat, item: Item)
    requires k < |items| && k < n && k !in kept
    ensures Shapes(Remaining(items[k := item], n, kept + {k}))
            == Shapes(Remaining(items, n, kept)) + multiset{ShapeOf(item)}
  {
    hide ShapeOf, Shapes;
    var m := |items| - 1;
    var tail := if m < n && m !in kept then [] else [items[m]];
    assert Remaining(items, n, kept) == Remaining(items[..m], n, kept) + tail;
    if k < m {
      var changed := items[..m][k := item];
      assert items[k := item][..m] == changed;
      assert Remaining(items[k := item], n, kept + {k}) == Remaining(changed, n, kept + {k}) + tail;
      hide Remaining;
      KeepingOneMore(items[..m], n, kept, k, item);
      ShapesPost(Remaining(changed, n, kept + {k}), tail);
      ShapesPost(Remaining(items[..m], n, kept), tail);
    } else {
      assert items[k := item][..m] == items[..m] && tail == [];
      assert Remaining(items[k := item], n, kept + {k}) == Remaining(items[..m], n, kept + {k}) + [item];
      RemainingIgnoresKept(items[..m], n, kept, k);
      ShapesPost(Remaining(items[..m], n, kept), [item]);
      ShapeOfOne(item);
      assert Remaining(items[..m], n, kept) + [] == Remaining(items[..m], n, kept);
    }
  }

  lemma {:induction false} RemainingIgnoresKept(items: seq<Item>, n: nat, kept: set<nat>, k: nat)
    requires |items| <= k
    ensures Remaining(items, n, kept + {k}) == Remaining(items, n, kept)
  {
    if items != [] { RemainingIgnoresKept(items[..|items| - 1], n, kept, k); }
  }

  lemma {:induction false} NothingKept(items: seq<Item>, n: nat)
    requires |items| <= n
    ensures Remaining(items, n, {}) == []
  {
    if items != [] { NothingKept(items[..|items| - 1], n); }
  }

  lemma AbsorbedAsAsked(existing: seq<Item>, p: Progress, w: Wanted, prices: Prices, r: real)
    requires |p.items| >= |existing| && Absorb(existing, p, w, prices, r).Ok?
    requires UnmatchedStand(existing, p) && (Match(existing, w).Some? ==> Match(existing, w).value !in p.kept)
    ensures var q := Absorb(existing, p, w, prices, r).value;
            Shapes(Remaining(q.items, |existing|, q.kept))
            == Shapes(Remaining(p.items, |existing|, p.kept)) + multiset{Asked(w)}
  {
    hide Worth, Match, Shapes;
    var n, q := |existing|, Absorb(existing, p, w, prices, r).value;
    var found := Match(existing, w);
    if found.Some? {
      var k := found.value;
      assert p.items[k] == existing[k] && p.items[k := p.items[k]] == p.items;
      KeepingOneMore(p.items, n, p.kept, k, q.items[k]);
      hide Remaining;
    } else {
      var item := q.items[|p.items|];
      assert q.items[..|p.items|] == p.items;
      assert Remaining(q.items, n, q.kept) == Remaining(p.items, n, p.kept) + [item];
      ShapesPost(Remaining(p.items, n, p.kept), [item]);
      assert Shapes([item]) == multiset{ShapeOf(item)} by { ShapeOfOne(item); }
      hide Remaining;
    }
  }

  lemma ShapeOfOne(item: Item)
    ensures Shapes([item]) == multiset{ShapeOf(item)}
  {
    assert [item][..0] == [];
  }

  lemma {:induction false} AbsorbedKeepsNamed(existing: seq<Item>, wanted: seq<Wanted>, nextItem: nat, prices: Prices, r: real)
    requires AbsorbAll(existing, wanted, nextItem, prices, r).Ok?
    ensures KeptByName(existing, wanted, AbsorbAll(existing, wanted, nextItem, prices, r).value.kept)
  {
    hide Worth, Match;
    if wanted != [] {
      var n := |wanted| - 1;
      AbsorbedKeepsNamed(existing, wanted[..n], nextItem, prices, r);
      var before := AbsorbAll(existing, wanted[..n], nextItem, prices, r).value;
      forall k | k in before.kept ensures exists j: nat :: j < |wanted| && Match(existing, wanted[j]) == Some(k) {
        var j: nat :| j < n && Match(existing, wanted[..n][j]) == Some(k);
        assert Match(existing, wanted[j]) == Some(k);
      }
      assert Match(existing, wanted[n]) == Match(existing, wanted[|wanted| - 1]);
    }
  }

  lemma {:induction false} AllAbsorbedAsAsked(existing: seq<Item>, wanted: seq<Wanted>, nextItem: nat, prices: Prices, r: real)
    requires AbsorbAll(existing, wanted, nextItem, prices, r).Ok? && MatchedOnce(existing, wanted)
    ensures var p := AbsorbAll(existing, wanted, nextItem, prices, r).value;
            Shapes(Remaining(p.items, |existing|, p.kept)) == AllAsked(wanted)
  {
    hide Absorb, Match, Remaining, Asked, Worth, Shapes, UnmatchedStand;
    if wanted == [] {
      NothingKept(existing, |existing|);
      NoShapes();
    } else {
      var n := |wanted| - 1;
      var earlier, w := wanted[..n], wanted[n];
      assert MatchedOnce(existing, earlier);
      AllAbsorbedAsAsked(existing, earlier, nextItem, prices, r);
      UnmatchedAreUntouched(existing, earlier, nextItem, prices, r);
      AbsorbedKeepsNamed(existing, earlier, nextItem, prices, r);
      var before := AbsorbAll(existing, earlier, nextItem, prices, r).value;
      MatchedOnceIsNew(existing, wanted, before.kept);
      AbsorbedAsAsked(existing, before, w, prices, r);
    }
  }

  lemma MatchedOnceIsNew(existing: seq<Item>, wanted: seq<Wanted>, kept: set<nat>)
    requires wanted != [] && MatchedOnce(existing, wanted) && KeptByName(existing, wanted[..|wanted| - 1], kept)
    ensures var found := Match(existing, wanted[|wanted| - 1]); found.Some? ==> found.value !in kept
  {
    hide Match;
    var n := |wanted| - 1;
    forall k | k in kept ensures Match(existing, wanted[n]) != Some(k) {
      var j: nat :| j < n && Match(existing, wanted[..n][j]) == Some(k);
      assert Match(existing, wanted[j]) == Some(k);
    }
  }

  lemma NoShapes()
    ensures Shapes([]) == multiset{}
  {
  }

  /** An update is the full desired set: with each item named at most once, the items end as the entries ask, each its
      plan and its quantity, and there is no other. */
  lemma ItemsAreWhatWasAsked(s: Subscription, wanted: seq<Wanted>, prices: Prices, r: real)
    requires UpdateItems(s, wanted, prices, r).Ok? && MatchedOnce(s.items, wanted)
    ensures Shapes(UpdateItems(s, wanted, prices, r).value.subscription.items) == AllAsked(wanted)
  {
    AllAbsorbedAsAsked(s.items, wanted, s.nextItem, prices, r);
    hide AbsorbAll, Remaining, Shapes, AllAsked;
  }

  /** The entry names an item by its id, or without an id by its plan, and no item before it. */
  predicate Names(existing: seq<Item>, w: Wanted, k: nat) {
    && k < |existing|
    && (w.item.Some? ==> existing[k].id == w.item.value && forall i :: 0 <= i < k ==> existing[i].id != w.item.value)
    && (w.item.None? ==> existing[k].plan == w.plan && forall i :: 0 <= i < k ==> existing[i].plan != w.plan)
  }

  lemma NamedIsMatched(existing: seq<Item>, w: Wanted, k: nat)
    requires Names(existing, w, k)
    ensures Match(existing, w) == Some(k)
  {
    assert Hits(existing[k], w);
    forall i | 0 <= i < k ensures !Hits(existing[i], w) {}
    hide Match;
  }

  lemma {:induction false} NamedOnceIsLastChange(existing: seq<Item>, wanted: seq<Wanted>, j: nat, k: nat)
    requires j < |wanted| && k < |existing| && Match(existing, wanted[j]) == Some(k) && MatchedOnce(existing, wanted)
    ensures LastChange(existing, wanted, k)
            == Item(existing[k].id, wanted[j].plan, E.Default(wanted[j].quantity, 1))
  {
    hide Match;
    var n := |wanted| - 1;
    if j < n {
      assert MatchedOnce(existing, wanted[..n]);
      assert Match(existing, wanted[j]) != Match(existing, wanted[n]);
      NamedOnceIsLastChange(existing, wanted[..n], j, k);
    } else {
      forall i: nat | i < n ensures Match(existing, wanted[..n][i]) != Some(k) {
        assert Match(existing, wanted[i]) != Match(existing, wanted[n]);
      }
      UnmatchedStands(existing, wanted[..n], k);
    }
  }

  lemma {:induction false} MatchedIsKept(existing: seq<Item>, wanted: seq<Wanted>, nextItem: nat, prices: Prices, r: real, j: nat)
    requires AbsorbAll(existing, wanted, nextItem, prices, r).Ok? && j < |wanted|
    ensures var found := Match(existing, wanted[j]);
            found.Some? ==> found.value in AbsorbAll(existing, wanted, nextItem, prices, r).value.kept
  {
    hide Worth, Match;
    var n := |wanted| - 1;
    if j < n { MatchedIsKept(existing, wanted[..n], nextItem, prices, r, j); }
  }

  lemma {:induction false} StayingIsLeft(items: seq<Item>, n: nat, kept: set<nat>, k: nat)
    requires k < |items| && Stays(n, kept, k)
    ensures items[k] in Remaining(items, n, kept)
  {
    var m := |items| - 1;
    if k < m { StayingIsLeft(items[..m], n, kept, k); }
  }

  /** An item keeps its id through a change: the one an entry names ends, under its id, as the entry asks. */
  lemma NamedItemsKeepTheirIds(s: Subscription, wanted: seq<Wanted>, prices: Prices, r: real, j: nat, k: nat)
    requires UpdateItems(s, wanted, prices, r).Ok? && MatchedOnce(s.items, wanted)
    requires j < |wanted| && Names(s.items, wanted[j], k)
    ensures Item(s.items[k].id, wanted[j].plan, E.Default(wanted[j].quantity, 1))
            in UpdateItems(s, wanted, prices, r).value.subscription.items
  {
    hide AbsorbAll, Match, LastChange, Worth, MatchedOnce, Remaining;
    var p := AbsorbAll(s.items, wanted, s.nextItem, prices, r).value;
    NamedIsMatched(s.items, wanted[j], k);
    NamedOnceIsLastChange(s.items, wanted, j, k);
    ItemsAreLastChanges(s.items, wanted, s.nextItem, prices, r);
    MatchedIsKept(s.items, wanted, s.nextItem, prices, r, j);
    StayingIsLeft(p.items, |s.items|, p.kept, k);
  }

  predicate PositivePrices(prices: Prices) { forall plan <- prices :: prices[plan] > 0 }

  predicate PositiveQuantities(items: seq<Item>) { forall i <- items :: i.quantity > 0 }

  /** An item that a deletion leaves: added by the update, or kept by an entry. */
  predicate Stays(n: nat, kept: set<nat>, k: nat) { k < n ==> k in kept }

  lemma {:induction false} SomethingStays(items: seq<Item>, n: nat, kept: set<nat>, k: nat)
    requires k < |items| && Stays(n, kept, k)
    ensures Remaining(items, n, kept) != []
  {
    var m := |items| - 1;
    if k < m { SomethingStays(items[..m], n, kept, k); }
  }

  ghost predicate SomeStay(items: seq<Item>, n: nat, kept: set<nat>) { exists k: nat :: k < |items| && Stays(n, kept, k) }

  predicate AllAskForSome(wanted: seq<Wanted>) { forall w <- wanted :: E.Default(w.quantity, 1) > 0 }

  lemma AskingMore(wanted: seq<Wanted>)
    requires wanted != []
    ensures AllAskForSome(wanted)
            <==> AllAskForSome(wanted[..|wanted| - 1]) && E.Default(wanted[|wanted| - 1].quantity, 1) > 0
  {
    assert wanted == wanted[..|wanted| - 1] + [wanted[|wanted| - 1]];
  }

  /** With what there was in order, the entries are accepted exactly when each asks for something. */
  lemma {:induction false} AbsorbsExactlyWhen(existing: seq<Item>, wanted: seq<Wanted>, nextItem: nat, prices: Prices, r: real)
    requires PositiveQuantities(existing)
    ensures var result := AbsorbAll(existing, wanted, nextItem, prices, r);
            && (result.Ok? <==> AllAskForSome(wanted))
            && (result.Ok? ==> PositiveQuantities(result.value.items))
            && (result.Ok? && wanted != [] ==> SomeStay(result.value.items, |existing|, result.value.kept))
  {
    hide Worth, Match, SomeStay, Absorb, PositiveQuantities, AllAskForSome;
    if wanted == [] {
      assert AllAskForSome([]) by { NothingAsked(); }
    } else {
      var n := |wanted| - 1;
      AbsorbsExactlyWhen(existing, wanted[..n], nextItem, prices, r);
      AskingMore(wanted);
      var before := AbsorbAll(existing, wanted[..n], nextItem, prices, r);
      if before.Ok? { AbsorbOneExactlyWhen(existing, before.value, wanted[n], prices, r); }
    }
  }

  lemma NothingAsked()
    ensures AllAskForSome([])
  {
  }

  lemma AbsorbOneExactlyWhen(existing: seq<Item>, p: Progress, w: Wanted, prices: Prices, r: real)
    requires |p.items| >= |existing| && PositiveQuantities(existing) && PositiveQuantities(p.items)
    ensures var result := Absorb(existing, p, w, prices, r);
            && (result.Ok? <==> E.Default(w.quantity, 1) > 0)
            && (result.Ok? ==> PositiveQuantities(result.value.items))
            && (result.Ok? ==> SomeStay(result.value.items, |existing|, result.value.kept))
  {
    hide Worth, Match;
    var found, result := Match(existing, w), Absorb(existing, p, w, prices, r);
    if result.Ok? {
      var k := if found.Some? then found.value else |p.items|;
      assert Stays(|existing|, result.value.kept, k);
    }
  }

  lemma {:induction false} BillIsPositive(items: seq<Item>, prices: Prices)
    requires PlansPriced(items, prices) && PositivePrices(prices) && PositiveQuantities(items)
    ensures Bill(items, prices) >= 0 && (items != [] ==> Bill(items, prices) > 0)
  {
    if items != [] {
      BillIsPositive(items[..|items| - 1], prices);
      assert items[|items| - 1] in items;
      PositiveTimes(prices[items[|items| - 1].plan], items[|items| - 1].quantity);
    }
  }

  lemma PositiveTimes(a: int, b: int)
    requires a > 0 && b > 0
    ensures a * b > 0
  {
  }

  /** What an accepted set of entries leaves is worth something, unless there are none. */
  lemma LeavesSomethingExactlyWhen(s: Subscription, wanted: seq<Wanted>, prices: Prices, r: real)
    requires PositivePrices(prices) && PositiveQuantities(s.items) && PlansExist(s.items, wanted, prices)
    requires AbsorbAll(s.items, wanted, s.nextItem, prices, r).Ok?
    ensures var p := AbsorbAll(s.items, wanted, s.nextItem, prices, r).value;
            var items := Remaining(p.items, |s.items|, p.kept);
            if wanted == [] then items == [] else items != [] && S.Sum(items, Price(prices)) > 0
  {
    hide Worth, Price, Bill, S.Sum, PositivePrices, Stays, AllAskForSome;
    var p := AbsorbAll(s.items, wanted, s.nextItem, prices, r).value;
    var items := Remaining(p.items, |s.items|, p.kept);
    if wanted == [] {
      NothingKept(s.items, |s.items|);
    } else {
      AbsorbsExactlyWhen(s.items, wanted, s.nextItem, prices, r);
      AbsorbedPlansExist(s.items, wanted, s.nextItem, prices, r);
      hide AbsorbAll, Remaining;
      var k: nat :| k < |p.items| && Stays(|s.items|, p.kept, k);
      SomethingStays(p.items, |s.items|, p.kept, k);
      RemainingArePart(p.items, |s.items|, p.kept);
      BillIsTheSum(items, prices);
      BillIsPositive(items, prices);
    }
  }

  /** An update is accepted exactly when the subscription is open, every plan exists, and something is asked for and
      nothing in a quantity of nothing. */
  lemma UpdatedExactlyWhen(s: Subscription, wanted: seq<Wanted>, prices: Prices, r: real)
    requires PositivePrices(prices) && PositiveQuantities(s.items)
    ensures UpdateItems(s, wanted, prices, r).Ok? <==>
            && s.status !in {Cancelled, Completed}
            && (forall i <- s.items :: i.plan in prices) && (forall w <- wanted :: w.plan in prices)
            && wanted != [] && (forall w <- wanted :: E.Default(w.quantity, 1) > 0)
  {
    hide AbsorbAll, Remaining, Price, S.Sum, Credits, PositivePrices, PositiveQuantities;
    AbsorbsExactlyWhen(s.items, wanted, s.nextItem, prices, r);
    if PlansExist(s.items, wanted, prices) && AbsorbAll(s.items, wanted, s.nextItem, prices, r).Ok? {
      LeavesSomethingExactlyWhen(s, wanted, prices, r);
    }
  }

  /* ---------------------------- what the lines are a share of ---------------------------- */

  /** Between its start and its end a period has left what is left of it; before it all, after it nothing. */
  lemma FractionIsTheTimeLeft(start: int, next: Option<int>, now: int)
    ensures var r := RemainingFraction(start, next, now);
            if next.None? || next.value <= start || next.value <= now then r == 0.0
            else if now <= start then r == 1.0
            else r * (next.value - start) as real == (next.value - now) as real
  {
    if next.Some? && start <= now < next.value {
      Divided((next.value - now) as real, (next.value - start) as real);
    } else if next.Some? && start < next.value {
      Divided((next.value - now) as real, (next.value - start) as real);
    }
  }

  /** A quotient of two numbers, and where it lies. */
  lemma Divided(a: real, b: real)
    requires b > 0.0
    ensures a / b * b == a
    ensures a >= b ==> a / b >= 1.0
    ensures a <= b ==> a / b <= 1.0
    ensures a <= 0.0 ==> a / b <= 0.0
    ensures a >= 0.0 ==> a / b >= 0.0
  {
  }

  lemma SameDivisor(a: real, b: real, c: real)
    requires a <= b && c > 0.0
    ensures a / c <= b / c
  {
  }

  lemma FractionNeverGrows(start: int, next: Option<int>, now: int, later: int)
    requires now <= later
    ensures RemainingFraction(start, next, later) <= RemainingFraction(start, next, now)
  {
    if next.Some? && start < next.value {
      SameDivisor((next.value - later) as real, (next.value - now) as real, (next.value - start) as real);
    }
  }

  /** A share is the nearest whole amount, a half going up. */
  lemma ShareIsNearest(full: int, r: real)
    ensures full as real * r - 0.5 < Share(full, r) as real <= full as real * r + 0.5
  {
  }

  /** `x` is the share `r` of an amount, to within half a minor unit for each of some number of items. */
  predicate IsShare(x: int, amount: int, r: real, items: nat) {
    -(items as real) / 2.0 <= x as real - amount as real * r <= items as real / 2.0
  }

  lemma SharesSubtract(x: int, a: int, m: nat, y: int, b: int, n: nat, r: real)
    requires IsShare(x, a, r, m) && IsShare(y, b, r, n)
    ensures IsShare(y - x, b - a, r, m + n)
  {
    RealDistributes((b - a) as real, a as real, r);
  }

  /** What items are worth is the share of their bill, to within half a minor unit each. */
  lemma {:induction false} WorthIsTheShareOfTheBill(items: seq<Item>, prices: Prices, r: real)
    requires PlansPriced(items, prices)
    ensures IsShare(WorthOf(items, prices, r), Bill(items, prices), r, |items|)
  {
    hide Share;
    if items != [] {
      var n := |items| - 1;
      WorthIsTheShareOfTheBill(items[..n], prices, r);
      var full := prices[items[n].plan] * items[n].quantity;
      ShareIsNearest(full, r);
      assert Worth(prices, r)(items[n]) == Share(full, r);
      RealDistributes(Bill(items[..n], prices) as real, full as real, r);
    }
  }

  lemma RealDistributes(a: real, b: real, r: real)
    ensures (a + b) * r == a * r + b * r
  {
  }

  lemma WholeShare(full: int)
    ensures Share(full, 1.0) == full
  {
  }

  lemma {:induction false} WholePeriodIsTheBill(items: seq<Item>, prices: Prices)
    requires PlansPriced(items, prices)
    ensures WorthOf(items, prices, 1.0) == Bill(items, prices)
  {
    hide Share;
    if items != [] {
      var n := |items| - 1;
      WholePeriodIsTheBill(items[..n], prices);
      var full := prices[items[n].plan] * items[n].quantity;
      WholeShare(full);
      assert Worth(prices, 1.0)(items[n]) == Share(full, 1.0);
    }
  }

  lemma {:induction false} NothingLeftIsWorthNothing(items: seq<Item>, prices: Prices)
    ensures WorthOf(items, prices, 0.0) == 0
  {
    if items != [] { NothingLeftIsWorthNothing(items[..|items| - 1], prices); }
  }

  /**
   * The lines of a change are the part of the period still to run, of the change in the bill: to within half a minor unit
   * for each item there was and each there is, exactly up to the period's start, and nothing from its end on.
   */
  lemma LinesAreTheShareOfTheChange(s: Subscription, wanted: seq<Wanted>, prices: Prices, start: int, next: Option<int>, now: int)
    requires UpdateItems(s, wanted, prices, RemainingFraction(start, next, now)).Ok? && MatchedOnce(s.items, wanted)
    ensures PlansPriced(s.items, prices)
    ensures var r := RemainingFraction(start, next, now);
            var u := UpdateItems(s, wanted, prices, r).value;
            var change := u.subscription.amount - Bill(s.items, prices);
            var items := |s.items| + |u.subscription.items|;
            && IsShare(Net(u.lines), change, r, items)
            && (next.Some? && start < next.value && now <= start ==> Net(u.lines) == change)
            && (next.None? || next.value <= start || next.value <= now ==> Net(u.lines) == 0)
  {
    hide UpdateItems, WorthOf, Bill, Net, RemainingFraction, MatchedOnce, PlansPriced, IsShare;
    var r := RemainingFraction(start, next, now);
    var u := UpdateItems(s, wanted, prices, r).value;
    LinesNetToTheChange(s, wanted, prices, r);
    UpdatesArePriced(s, wanted, prices, r);
    FractionIsTheTimeLeft(start, next, now);
    WorthFollowsTheBill(s.items, u.subscription.items, prices, r);
  }

  lemma WorthFollowsTheBill(before: seq<Item>, after: seq<Item>, prices: Prices, r: real)
    requires PlansPriced(before, prices) && PlansPriced(after, prices)
    ensures var gained := WorthOf(after, prices, r) - WorthOf(before, prices, r);
            var change, items := Bill(after, prices) - Bill(before, prices), |before| + |after|;
            && IsShare(gained, change, r, items)
            && (r == 1.0 ==> gained == change)
            && (r == 0.0 ==> gained == 0)
  {
    hide WorthOf, Bill, PlansPriced, IsShare;
    WorthIsTheShareOfTheBill(before, prices, r);
    WorthIsTheShareOfTheBill(after, prices, r);
    SharesSubtract(WorthOf(before, prices, r), Bill(before, prices), |before|,
                   WorthOf(after, prices, r), Bill(after, prices), |after|, r);
    if r == 1.0 {
      WholePeriodIsTheBill(before, prices);
      WholePeriodIsTheBill(after, prices);
    }
    if r == 0.0 {
      NothingLeftIsWorthNothing(before, prices);
      NothingLeftIsWorthNothing(after, prices);
    }
  }

  /* ---------------------------- fair lines ---------------------------- */

  lemma ShareIsWithinFull(full: int, r: real)
    requires full >= 0 && 0.0 <= r <= 1.0
    ensures 0 <= Share(full, r) <= full
  {
    assert 0.0 <= full as real * r <= full as real;
  }

  /** A credit for the rest of the period on an item given up, at most what the item costs. */
  predicate IsCredit(x: int, existing: seq<Item>, prices: Prices, r: real) {
    exists i <- existing :: x == -Worth(prices, r)(i) && -Price(prices)(i) <= x <= 0
  }

  /** A charge for the rest of the period on an entry asked for, at most what it costs. */
  predicate IsCharge(x: int, wanted: seq<Wanted>, prices: Prices, r: real) {
    exists w <- wanted ::
      var item := Item(0, w.plan, E.Default(w.quantity, 1));
      x == Worth(prices, r)(item) && 0 <= x <= Price(prices)(item)
  }

  predicate FairLines(lines: seq<int>, existing: seq<Item>, wanted: seq<Wanted>, prices: Prices, r: real) {
    forall x <- lines :: IsCredit(x, existing, prices, r) || IsCharge(x, wanted, prices, r)
  }

  lemma WorthIsWithinPrice(item: Item, prices: Prices, r: real)
    requires PositivePrices(prices) && item.quantity > 0 && 0.0 <= r <= 1.0
    ensures 0 <= Worth(prices, r)(item) <= Price(prices)(item)
  {
    var full := Full(prices, item.plan, item.quantity);
    ShareIsWithinFull(full, r);
    assert Worth(prices, r)(item) == Share(full, r) && Price(prices)(item) == full;
  }

  lemma CreditIsFair(i: Item, existing: seq<Item>, prices: Prices, r: real)
    requires i in existing && PositivePrices(prices) && PositiveQuantities(existing) && 0.0 <= r <= 1.0
    ensures IsCredit(-Worth(prices, r)(i), existing, prices, r)
  {
    WorthIsWithinPrice(i, prices, r);
    hide Worth, Price;
  }

  lemma ChargeIsFair(item: Item, w: Wanted, wanted: seq<Wanted>, prices: Prices, r: real)
    requires w in wanted && item.plan == w.plan && item.quantity == E.Default(w.quantity, 1) > 0
    requires PositivePrices(prices) && 0.0 <= r <= 1.0
    ensures IsCharge(Worth(prices, r)(item), wanted, prices, r)
  {
    var plain := Item(0, w.plan, E.Default(w.quantity, 1));
    var full := Full(prices, w.plan, E.Default(w.quantity, 1));
    assert Worth(prices, r)(item) == Share(full, r) == Worth(prices, r)(plain);
    WorthIsWithinPrice(plain, prices, r);
    hide Worth, Price;
  }

  lemma {:induction false} AbsorbedLinesAreFair(existing: seq<Item>, wanted: seq<Wanted>, nextItem: nat, prices: Prices, r: real)
    requires AbsorbAll(existing, wanted, nextItem, prices, r).Ok?
    requires PositivePrices(prices) && PositiveQuantities(existing) && 0.0 <= r <= 1.0
    ensures FairLines(AbsorbAll(existing, wanted, nextItem, prices, r).value.lines, existing, wanted, prices, r)
  {
    hide Worth, Match, IsCredit, PositivePrices, Price;
    if wanted != [] {
      var n := |wanted| - 1;
      AbsorbedLinesAreFair(existing, wanted[..n], nextItem, prices, r);
      var before := AbsorbAll(existing, wanted[..n], nextItem, prices, r).value;
      assert FairLines(before.lines, existing, wanted, prices, r) by {
        FairForMore(before.lines, existing, wanted[..n], wanted, prices, r);
      }
      hide IsCharge;
      var found, quantity := Match(existing, wanted[n]), E.Default(wanted[n].quantity, 1);
      if found.None? {
        ChargeIsFair(Item(before.nextItem, wanted[n].plan, quantity), wanted[n], wanted, prices, r);
      } else if !Unchanged(existing[found.value], wanted[n]) {
        CreditIsFair(existing[found.value], existing, prices, r);
        ChargeIsFair(existing[found.value].(plan := wanted[n].plan, quantity := quantity), wanted[n], wanted, prices, r);
      }
    }
  }

  lemma FairForMore(lines: seq<int>, existing: seq<Item>, wanted: seq<Wanted>, more: seq<Wanted>, prices: Prices, r: real)
    requires FairLines(lines, existing, wanted, prices, r) && forall w <- wanted :: w in more
    ensures FairLines(lines, existing, more, prices, r)
  {
    hide Worth, Price, IsCredit;
  }

  lemma {:induction false} CreditsAreFair(existing: seq<Item>, all: seq<Item>, wanted: seq<Wanted>, kept: set<nat>, prices: Prices, r: real)
    requires PositivePrices(prices) && PositiveQuantities(all) && 0.0 <= r <= 1.0
    requires forall i <- existing :: i in all
    ensures FairLines(Credits(existing, kept, prices, r), all, wanted, prices, r)
  {
    hide Worth, Price, IsCredit, IsCharge, PositivePrices;
    if existing != [] {
      var k := |existing| - 1;
      CreditsAreFair(existing[..k], all, wanted, kept, prices, r);
      CreditIsFair(existing[k], all, prices, r);
    }
  }

  /** Every line is a credit for an item the subscription had or a charge for one asked for, never above its full price. */
  lemma LinesNeverExceedFullPrice(s: Subscription, wanted: seq<Wanted>, prices: Prices, start: int, next: Option<int>, now: int)
    requires PositivePrices(prices) && PositiveQuantities(s.items)
    requires UpdateItems(s, wanted, prices, RemainingFraction(start, next, now)).Ok?
    ensures var r := RemainingFraction(start, next, now);
            FairLines(UpdateItems(s, wanted, prices, r).value.lines, s.items, wanted, prices, r)
  {
    var r := RemainingFraction(start, next, now);
    AbsorbedLinesAreFair(s.items, wanted, s.nextItem, prices, r);
    var p := AbsorbAll(s.items, wanted, s.nextItem, prices, r).value;
    CreditsAreFair(s.items, s.items, wanted, p.kept, prices, r);
    hide RemainingFraction, AbsorbAll, Credits, IsCredit, IsCharge, Remaining;
  }

  /* ---------------------------- onto the next invoice ---------------------------- */

  /** Raise each line that is not nothing as a pending line of the subscription. */
  function RaiseLines(b: I.Books, customer: nat, subscription: nat, currency: string, lines: seq<int>): I.Books {
    if lines == [] then b else
    var n := |lines| - 1;
    var before := RaiseLines(b, customer, subscription, currency, lines[..n]);
    if lines[n] == 0 then before
    else I.After(before, I.AddInvoiceItem(I.LineDraft(Some(customer), Some(subscription), Some(lines[n]), None, None, Some(currency)), None))
  }

  /** The lines that are something, in order. */
  function NonZero(lines: seq<int>): seq<int> {
    if lines == [] then [] else
    NonZero(lines[..|lines| - 1]) + if lines[|lines| - 1] == 0 then [] else [lines[|lines| - 1]]
  }

  /** Each line that is something becomes one line of the customer's and the subscription's, in its currency. */
  lemma {:induction false} RaisedLinesAreTheNonZero(b: I.Books, customer: nat, subscription: nat, currency: string, lines: seq<int>)
    ensures var raised, amounts := RaiseLines(b, customer, subscription, currency, lines), NonZero(lines);
            && raised.invoices == b.invoices && raised.subscriptions == b.subscriptions
            && |raised.lines| == |b.lines| + |amounts| && raised.lines[..|b.lines|] == b.lines
            && forall k: nat :: k < |amounts| ==>
                 raised.lines[|b.lines| + k] == I.Line(customer, Some(subscription), None, amounts[k], currency, true)
  {
    if lines != [] {
      var n := |lines| - 1;
      RaisedLinesAreTheNonZero(b, customer, subscription, currency, lines[..n]);
    }
  }

  /** The lines wait for the subscription's next invoice, all of them, and no other subscription's sees them. */
  lemma {:induction false} RaisedLinesWait(b: I.Books, customer: nat, subscription: nat, currency: string, lines: seq<int>, s: nat)
    ensures I.WaitingTotal(RaiseLines(b, customer, subscription, currency, lines).lines, customer, Some(s))
            == I.WaitingTotal(b.lines, customer, Some(s)) + if s == subscription then Net(lines) else 0
  {
    if lines == [] {
      NothingNets();
    } else {
      var n := |lines| - 1;
      var before := RaiseLines(b, customer, subscription, currency, lines[..n]);
      RaisedLinesWait(b, customer, subscription, currency, lines[..n], s);
      assert lines[..n] + [lines[n]] == lines;
      NetGrows(lines[..n], lines[n]);
      var line := I.Line(customer, Some(subscription), None, lines[n], currency, true);
      S.SumOne(before.lines, line, I.Waiting(customer, Some(s)));
      hide Net;
    }
  }

  /* ---------------------------- the renewal ---------------------------- */

  /** One line a price: the plan's amount by the unit, as many as the item has. An item whose plan is gone has none. */
  function RenewalLines(items: seq<Item>, customer: nat, subscription: nat, currency: string, prices: Prices): seq<I.LineDraft> {
    if items == [] then [] else
    var last := items[|items| - 1];
    RenewalLines(items[..|items| - 1], customer, subscription, currency, prices)
    + if last.plan in prices
      then [I.LineDraft(Some(customer), Some(subscription), None, Some(prices[last.plan]), Some(last.quantity), Some(currency))]
      else []
  }

  /** The invoice a renewal raises: its lines, or without any the stored amount. */
  function Renewal(s: Subscription, customer: nat, subscription: nat, currency: string, prices: Prices): I.Op {
    var lines := RenewalLines(s.items, customer, subscription, currency, prices);
    I.CreateInvoice(Some(subscription), None, if lines == [] then Some(s.amount) else None, None, false, lines)
  }

  lemma {:induction false} RenewalLinesAreTheBill(items: seq<Item>, customer: nat, subscription: nat, currency: string, prices: Prices)
    requires PlansPriced(items, prices)
    ensures var lines := RenewalLines(items, customer, subscription, currency, prices);
            |lines| == |items| && I.AllByTheUnit(lines) && I.Units(lines) == Bill(items, prices)
  {
    if items != [] {
      var n := |items| - 1;
      RenewalLinesAreTheBill(items[..n], customer, subscription, currency, prices);
      var lines := RenewalLines(items, customer, subscription, currency, prices);
      assert lines[..n] == RenewalLines(items[..n], customer, subscription, currency, prices);
    }
  }

  lemma LinkedRenewal(b: I.Books, s: Subscription, which: nat, prices: Prices)
    requires I.Linked(b) && which < |b.subscriptions| && |b.subscriptions[which].currency| > 0 && Priced(s, prices)
    ensures var payer := b.subscriptions[which];
            var op := Renewal(s, payer.customer, which, payer.currency, prices);
            && I.Apply(b, op).Ok? && |I.After(b, op).invoices| == |b.invoices| + 1
            && I.After(b, op).invoices[|b.invoices|].amount
               == E.Max0(s.amount + I.WaitingTotal(b.lines, payer.customer, Some(which)))
  {
    hide I.Linked, I.Apply, I.After, I.WaitingTotal, I.Units, I.AllByTheUnit, Bill, RenewalLines;
    var payer := b.subscriptions[which];
    var op := Renewal(s, payer.customer, which, payer.currency, prices);
    RenewalLinesAreTheBill(s.items, payer.customer, which, payer.currency, prices);
    I.RaisedForItsPayer(b, op);
    I.LinkedRaisedForItsUnits(b, op);
  }

  /** In every reachable state a renewal comes to the stored amount and whatever waited for it. */
  lemma RenewalBillsTheAmount(subscriptions: seq<I.Subscription>, earlier: seq<I.Op>, s: Subscription, which: nat, prices: Prices)
    requires which < |I.Run(I.NewBooks(subscriptions), earlier).subscriptions| && Priced(s, prices)
    requires |I.Run(I.NewBooks(subscriptions), earlier).subscriptions[which].currency| > 0
    ensures var b := I.Run(I.NewBooks(subscriptions), earlier);
            var payer := b.subscriptions[which];
            var op := Renewal(s, payer.customer, which, payer.currency, prices);
            && I.Apply(b, op).Ok? && |I.After(b, op).invoices| == |b.invoices| + 1
            && I.After(b, op).invoices[|b.invoices|].amount
               == E.Max0(s.amount + I.WaitingTotal(b.lines, payer.customer, Some(which)))
  {
    I.RunsAreLinked(subscriptions, earlier);
    hide I.Run, I.Linked, I.After, I.Apply, Renewal, I.WaitingTotal, Priced;
    LinkedRenewal(I.Run(I.NewBooks(subscriptions), earlier), s, which, prices);
  }

  lemma {:induction false} RaisingKeepsLinked(b: I.Books, customer: nat, subscription: nat, currency: string, lines: seq<int>)
    requires I.Linked(b)
    ensures I.Linked(RaiseLines(b, customer, subscription, currency, lines))
  {
    hide I.Linked, I.After;
    if lines != [] {
      var n := |lines| - 1;
      var before := RaiseLines(b, customer, subscription, currency, lines[..n]);
      RaisingKeepsLinked(b, customer, subscription, currency, lines[..n]);
      if lines[n] != 0 {
        I.StepKeepsLinked(before, I.AddInvoiceItem(I.LineDraft(Some(customer), Some(subscription), Some(lines[n]), None, None,
                                                               Some(currency)), None));
      }
    }
  }

  /** From a change to the next renewal: the customer is asked for the new amount and the proration, once each. */
  lemma RenewalAfterAChange(subscriptions: seq<I.Subscription>, earlier: seq<I.Op>, s: Subscription, wanted: seq<Wanted>,
                            which: nat, prices: Prices, r: real)
    requires which < |I.Run(I.NewBooks(subscriptions), earlier).subscriptions| && UpdateItems(s, wanted, prices, r).Ok?
    requires |I.Run(I.NewBooks(subscriptions), earlier).subscriptions[which].currency| > 0
    ensures var b := I.Run(I.NewBooks(subscriptions), earlier);
            var payer, u := b.subscriptions[which], UpdateItems(s, wanted, prices, r).value;
            var raised := RaiseLines(b, payer.customer, which, payer.currency, u.lines);
            var op := Renewal(u.subscription, payer.customer, which, payer.currency, prices);
            && I.Apply(raised, op).Ok? && |I.After(raised, op).invoices| == |raised.invoices| + 1
            && I.After(raised, op).invoices[|raised.invoices|].amount
               == E.Max0(u.subscription.amount + Net(u.lines) + I.WaitingTotal(b.lines, payer.customer, Some(which)))
  {
    hide I.Run, I.Linked, I.After, I.Apply, UpdateItems, Renewal, I.WaitingTotal, Priced, Net, RaiseLines;
    var b := I.Run(I.NewBooks(subscriptions), earlier);
    var payer, u := b.subscriptions[which], UpdateItems(s, wanted, prices, r).value;
    I.RunsAreLinked(subscriptions, earlier);
    UpdatesArePriced(s, wanted, prices, r);
    RaisingKeepsLinked(b, payer.customer, which, payer.currency, u.lines);
    RaisedLinesAreTheNonZero(b, payer.customer, which, payer.currency, u.lines);
    RaisedLinesWait(b, payer.customer, which, payer.currency, u.lines, which);
    LinkedRenewal(RaiseLines(b, payer.customer, which, payer.currency, u.lines), u.subscription, which, prices);
  }
}
