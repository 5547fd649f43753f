/** Stable serialisation: one text for all the JSON values that differ only in key order. */
module CanonicalJson {
  import opened JsonText
  import opened JsonNumbers

  datatype Json =
    | Null | Bool(truth: bool) | Num(number: Number) | Str(text: Text)
    | Arr(items: seq<Json>) | Obj(entries: seq<Entry>)

  datatype Entry = Entry(key: Text, value: Json)

  /* ---------------------------- key order ---------------------------- */

  /** `a < b` on strings compares code units. */
  predicate Less(a: Text, b: Text)
    decreases |a|
  {
    b != [] && (a == [] || a[0] < b[0] || (a[0] == b[0] && Less(a[1..], b[1..])))
  }

  lemma {:induction false} NeverLessThanItself(a: Text)
    ensures !Less(a, a)
    decreases |a|
  {
    if a != [] { NeverLessThanItself(a[1..]); }
  }

  lemma {:induction false} LessIsTransitive(a: Text, b: Text, c: Text)
    requires Less(a, b) && Less(b, c)
    ensures Less(a, c)
    decreases |a|
  {
    if a != [] && a[0] == b[0] == c[0] { LessIsTransitive(a[1..], b[1..], c[1..]); }
  }

  lemma {:induction false} OneIsLess(a: Text, b: Text)
    requires a != b
    ensures Less(a, b) || Less(b, a)
    decreases |a|
  {
    if a != [] && b != [] && a[0] == b[0] {
      assert a == [a[0]] + a[1..] && b == [b[0]] + b[1..];
      OneIsLess(a[1..], b[1..]);
    }
  }

  /** Where two keys first differ: one has ended, or has the smaller unit. */
  predicate FirstDiffersAt(a: Text, b: Text, k: nat) {
    && k <= |a| && k < |b| && (forall i :: 0 <= i < k ==> a[i] == b[i])
    && (k < |a| ==> a[k] < b[k])
  }

  lemma {:induction false} LessExactlyWhen(a: Text, b: Text)
    ensures Less(a, b) <==> exists k: nat :: FirstDiffersAt(a, b, k)
    decreases |a|
  {
    if b == [] {
    } else if a == [] || a[0] < b[0] {
      assert FirstDiffersAt(a, b, 0);
    } else if a[0] == b[0] {
      LessExactlyWhen(a[1..], b[1..]);
      if Less(a[1..], b[1..]) {
        var k: nat :| FirstDiffersAt(a[1..], b[1..], k);
        assert FirstDiffersAt(a, b, k + 1);
      } else {
        forall k: nat ensures !FirstDiffersAt(a, b, k) {
          assert k > 0 ==> FirstDiffersAt(a, b, k) ==> FirstDiffersAt(a[1..], b[1..], k - 1);
        }
      }
    }
  }

  function Insert(e: Entry, sorted: seq<Entry>): (r: seq<Entry>)
    ensures multiset(r) == multiset(sorted) + multiset{e}
  {
    if sorted == [] || !Less(sorted[0].key, e.key) then [e] + sorted
    else
      assert sorted == [sorted[0]] + sorted[1..];
      [sorted[0]] + Insert(e, sorted[1..])
  }

  /** The entries in key order. */
  function Sort(es: seq<Entry>): (r: seq<Entry>)
    ensures multiset(r) == multiset(es)
  {
    if es == [] then [] else
    assert es == [es[0]] + es[1..];
    Insert(es[0], Sort(es[1..]))
  }

  lemma SortKeeps(es: seq<Entry>, e: Entry)
    ensures e in Sort(es) <==> e in es
  {
    assert e in multiset(Sort(es)) <==> e in multiset(es);
  }

  /* ---------------------------- the serialiser ---------------------------- */

  const TRUE_TEXT: Text := [0x74, 0x72, 0x75, 0x65]

  const FALSE_TEXT: Text := [0x66, 0x61, 0x6c, 0x73, 0x65]

  /** Every number inside is a number there is, and every object has distinct keys. */
  predicate WellFormed(v: Json) {
    match v
    case Num(x) => Valid(x)
    case Arr(vs) => forall i :: 0 <= i < |vs| ==> WellFormed(vs[i])
    case Obj(es) =>
      && (forall i :: 0 <= i < |es| ==> WellFormed(es[i].value))
      && (forall i, j :: 0 <= i < j < |es| ==> es[i].key != es[j].key)
    case _ => true
  }

  ghost predicate AllWithin(es: seq<Entry>, v: Json) {
    forall i :: 0 <= i < |es| ==> es[i].value < v && WellFormed(es[i].value)
  }

  ghost predicate ItemsWithin(vs: seq<Json>, v: Json) {
    forall i :: 0 <= i < |vs| ==> vs[i] < v && WellFormed(vs[i])
  }

  lemma SortedWithin(v: Json)
    requires v.Obj? && WellFormed(v)
    ensures AllWithin(Sort(v.entries), v)
  {
    var sorted := Sort(v.entries);
    forall i | 0 <= i < |sorted| ensures sorted[i].value < v && WellFormed(sorted[i].value) {
      SortKeeps(v.entries, sorted[i]);
      var j :| 0 <= j < |v.entries| && v.entries[j] == sorted[i];
      assert v.entries[j].value < v;
    }
  }

  /** `stableStringify`. */
  function Stable(v: Json): Text
    requires WellFormed(v)
    decreases v, 1, 0
  {
    match v
    case Null => NULL_TEXT
    case Bool(truth) => if truth then TRUE_TEXT else FALSE_TEXT
    case Num(x) => NumberText(x)
    case Str(text) => Quote(text)
    case Arr(vs) => [OPEN_BRACKET] + Items(v, vs) + [CLOSE_BRACKET]
    case Obj(es) =>
      SortedWithin(v);
      [OPEN_BRACE] + Members(v, Sort(es)) + [CLOSE_BRACE]
  }

  /** `join(',')` of the items: each but the first behind a comma. */
  function Items(v: Json, vs: seq<Json>): Text
    requires ItemsWithin(vs, v)
    decreases v, 0, |vs| + 1
  {
    if vs == [] then [] else Stable(vs[0]) + MoreItems(v, vs[1..])
  }

  function MoreItems(v: Json, vs: seq<Json>): Text
    requires ItemsWithin(vs, v)
    decreases v, 0, |vs|
  {
    if vs == [] then [] else [COMMA] + Stable(vs[0]) + MoreItems(v, vs[1..])
  }

  function Member(v: Json, e: Entry): Text
    requires e.value < v && WellFormed(e.value)
    decreases v, 0, 0
  {
    Quote(e.key) + [COLON] + Stable(e.value)
  }

  function Members(v: Json, es: seq<Entry>): Text
    requires AllWithin(es, v)
    decreases v, 0, |es| + 2
  {
    if es == [] then [] else Member(v, es[0]) + MoreMembers(v, es[1..])
  }

  function MoreMembers(v: Json, es: seq<Entry>): Text
    requires AllWithin(es, v)
    decreases v, 0, |es| + 1
  {
    if es == [] then [] else [COMMA] + Member(v, es[0]) + MoreMembers(v, es[1..])
  }

  /* ---------------------------- the same up to key order ---------------------------- */

  /** `JSON.stringify` writes a number that is not finite as null. */
  predicate ReadsAsNull(v: Json) { v.Null? || (v.Num? && !IsFinite(v.number)) }

  ghost predicate Same(v: Json, w: Json)
    decreases v
  {
    if ReadsAsNull(v) || ReadsAsNull(w) then ReadsAsNull(v) && ReadsAsNull(w) else
    match v
    case Null => true
    case Bool(_) => w == v
    case Num(_) => w == v
    case Str(_) => w == v
    case Arr(vs) => w.Arr? && |w.items| == |vs| && forall i :: 0 <= i < |vs| ==> Same(vs[i], w.items[i])
    case Obj(es) =>
      && w.Obj?
      && (forall e <- es :: exists f <- w.entries :: e.key == f.key && Same(e.value, f.value))
      && KeysIn(w.entries, es)
  }

  predicate HasKey(es: seq<Entry>, key: Text) { exists i :: 0 <= i < |es| && es[i].key == key }

  predicate KeysIn(es: seq<Entry>, fs: seq<Entry>) { forall i :: 0 <= i < |es| ==> HasKey(fs, es[i].key) }

  ghost predicate HasPartner(e: Entry, fs: seq<Entry>) { exists f <- fs :: Partners(e, f) }

  ghost predicate Partners(e: Entry, f: Entry) { e.key == f.key && Same(e.value, f.value) }

  /* ---------------------------- one text, one value ---------------------------- */

  /** What can follow a value inside a text. */
  predicate Ends(x: Text) { x == [] || x[0] in {COMMA, CLOSE_BRACKET, CLOSE_BRACE} }

  /** The first unit of a value's text tells its kind. */
  predicate StartsAs(v: Json, u: Unit) {
    if ReadsAsNull(v) then u == 0x6e else
    match v
    case Null => false
    case Bool(truth) => u == if truth then 0x74 else 0x66
    case Num(_) => IsDigit(u) || u == MINUS
    case Str(_) => u == QUOTE
    case Arr(_) => u == OPEN_BRACKET
    case Obj(_) => u == OPEN_BRACE
  }

  lemma TextStarts(v: Json)
    requires WellFormed(v)
    ensures Stable(v) != [] && StartsAs(v, Stable(v)[0])
  {
    hide NumberText, Quote;
    match v
    case Num(x) => if IsFinite(x) { NumberTextLooks(x); } else { InfiniteIsNull(x); }
    case Str(text) => QuoteStarts(text);
    case Null =>
    case Bool(_) =>
    case Arr(_) =>
    case Obj(_) => SortedWithin(v);
  }

  lemma InfiniteIsNull(x: Number)
    requires Valid(x) && !IsFinite(x)
    ensures NumberText(x) == NULL_TEXT
  {
  }

  lemma QuoteStarts(text: Text)
    ensures Quote(text) != [] && Quote(text)[0] == QUOTE
  {
  }

  predicate SameKind(v: Json, w: Json) {
    if ReadsAsNull(v) || ReadsAsNull(w) then ReadsAsNull(v) && ReadsAsNull(w) else
    match v
    case Null => true
    case Bool(_) => w == v
    case Num(_) => w.Num?
    case Str(_) => w.Str?
    case Arr(_) => w.Arr?
    case Obj(_) => w.Obj?
  }

  lemma SameStartSameKind(v: Json, w: Json, u: Unit)
    requires StartsAs(v, u) && StartsAs(w, u)
    ensures SameKind(v, w)
  {
  }

  lemma SplitAgrees(s: Text, x: Text, t: Text, y: Text)
    requires s + x == t + y && |s| == |t|
    ensures s == t && x == y
  {
    assert s == (s + x)[..|s|] && t == (t + y)[..|t|] && x == (s + x)[|s|..] && y == (t + y)[|t|..];
  }

  lemma NotShorter(s: Text, x: Text, t: Text, y: Text)
    requires s + x == t + y && Ends(x) && forall i :: 0 <= i < |t| ==> InNumber(t[i])
    ensures |s| >= |t|
  {
    var whole := s + x;
    assert |whole| >= |t| && forall i :: 0 <= i < |t| ==> whole[i] == t[i];
    assert x != [] ==> whole[|s|] == x[0];
  }

  lemma NumbersAgree(a: Number, x: Text, b: Number, y: Text)
    requires Valid(a) && Valid(b) && IsFinite(a) && IsFinite(b) && Ends(x) && Ends(y)
    requires NumberText(a) + x == NumberText(b) + y
    ensures a == b && x == y
  {
    NumberTextLooks(a);
    NumberTextLooks(b);
    hide NumberText;
    NotShorter(NumberText(a), x, NumberText(b), y);
    NotShorter(NumberText(b), y, NumberText(a), x);
    SplitAgrees(NumberText(a), x, NumberText(b), y);
    NumberTextIsUnique(a, b);
  }

  /** Unique decodability: a value's text, with any legal continuation, gives back the value and the continuation. */
  lemma {:induction false} TextTellsValue(v: Json, w: Json, x: Text, y: Text)
    requires WellFormed(v) && WellFormed(w) && Ends(x) && Ends(y)
    requires Stable(v) + x == Stable(w) + y
    ensures Same(v, w) && x == y
    decreases v, 1, 0
  {
    TextStarts(v);
    TextStarts(w);
    assert Stable(v)[0] == (Stable(v) + x)[0] == (Stable(w) + y)[0] == Stable(w)[0];
    SameStartSameKind(v, w, Stable(v)[0]);
    hide StartsAs;
    match v
    case Null => NullTexts(v, w, x, y);
    case Bool(_) => SplitAgrees(Stable(v), x, Stable(w), y);
    case Num(a) => if IsFinite(a) { NumbersAgree(a, x, w.number, y); } else { NullTexts(v, w, x, y); }
    case Str(a) => QuoteIsUnique(a, w.text, x, y);
    case Arr(vs) => ArraysAgree(v, w, x, y);
    case Obj(es) => ObjectsAgree(v, w, x, y);
  }

  lemma NullTexts(v: Json, w: Json, x: Text, y: Text)
    requires WellFormed(v) && WellFormed(w) && ReadsAsNull(v) && ReadsAsNull(w) && Stable(v) + x == Stable(w) + y
    ensures x == y
  {
    SplitAgrees(Stable(v), x, Stable(w), y);
  }

  lemma Peel(u: Unit, x: Text, y: Text)
    requires [u] + x == [u] + y
    ensures x == y
  {
    SplitAgrees([u], x, [u], y);
  }

  lemma Regroup3(a: Text, b: Text, c: Text)
    ensures a + b + c == a + (b + c)
  {
  }

  /* ---------------------------- arrays ---------------------------- */

  /** The rest of an array from its first item, or from a later one, and what follows the array. */
  function ItemsThen(v: Json, vs: seq<Json>, x: Text): Text
    requires ItemsWithin(vs, v)
  {
    Items(v, vs) + ([CLOSE_BRACKET] + x)
  }

  function MoreItemsThen(v: Json, vs: seq<Json>, x: Text): Text
    requires ItemsWithin(vs, v)
  {
    MoreItems(v, vs) + ([CLOSE_BRACKET] + x)
  }

  lemma ItemsUnfold(v: Json, vs: seq<Json>, x: Text)
    requires ItemsWithin(vs, v)
    ensures if vs == [] then ItemsThen(v, vs, x) == [CLOSE_BRACKET] + x
            else ItemsThen(v, vs, x) == Stable(vs[0]) + MoreItemsThen(v, vs[1..], x)
  {
    hide Stable, MoreItems;
    if vs != [] { Regroup3(Stable(vs[0]), MoreItems(v, vs[1..]), [CLOSE_BRACKET] + x); }
  }

  lemma MoreItemsUnfold(v: Json, vs: seq<Json>, x: Text)
    requires ItemsWithin(vs, v)
    ensures if vs == [] then MoreItemsThen(v, vs, x) == [CLOSE_BRACKET] + x
            else MoreItemsThen(v, vs, x) == [COMMA] + (Stable(vs[0]) + MoreItemsThen(v, vs[1..], x))
    ensures Ends(MoreItemsThen(v, vs, x))
    ensures MoreItemsThen(v, vs, x)[0] == if vs == [] then CLOSE_BRACKET else COMMA
  {
    hide Stable;
    if vs != [] {
      Regroup3([COMMA], Stable(vs[0]), MoreItems(v, vs[1..]));
      Regroup3([COMMA], Stable(vs[0]) + MoreItems(v, vs[1..]), [CLOSE_BRACKET] + x);
      Regroup3(Stable(vs[0]), MoreItems(v, vs[1..]), [CLOSE_BRACKET] + x);
    }
  }

  lemma ArrayUnfolds(v: Json, x: Text)
    requires WellFormed(v) && v.Arr?
    ensures Stable(v) + x == [OPEN_BRACKET] + ItemsThen(v, v.items, x)
  {
    hide Items;
  }

  lemma {:induction false} ArraysAgree(v: Json, w: Json, x: Text, y: Text)
    requires WellFormed(v) && WellFormed(w) && v.Arr? && w.Arr? && Stable(v) + x == Stable(w) + y
    ensures Same(v, w) && x == y
    decreases v, 0, |v.items| + 2
  {
    hide ItemsThen, Stable;
    ArrayUnfolds(v, x);
    ArrayUnfolds(w, y);
    Peel(OPEN_BRACKET, ItemsThen(v, v.items, x), ItemsThen(w, w.items, y));
    ItemsAgree(v, v.items, w, w.items, x, y);
  }

  lemma ItemsStart(v: Json, vs: seq<Json>, x: Text)
    requires ItemsWithin(vs, v)
    ensures ItemsThen(v, vs, x) != [] && (ItemsThen(v, vs, x)[0] == CLOSE_BRACKET <==> vs == [])
  {
    ItemsUnfold(v, vs, x);
    hide Stable, ItemsThen, MoreItemsThen;
    if vs != [] { TextStarts(vs[0]); }
  }

  lemma {:induction false} ItemsAgree(v: Json, vs: seq<Json>, w: Json, ws: seq<Json>, x: Text, y: Text)
    requires ItemsWithin(vs, v) && ItemsWithin(ws, w) && ItemsThen(v, vs, x) == ItemsThen(w, ws, y)
    ensures |vs| == |ws| && (forall i :: 0 <= i < |vs| ==> Same(vs[i], ws[i])) && x == y
    decreases v, 0, |vs| + 1
  {
    hide Stable, ItemsThen, MoreItemsThen, StartsAs, Same;
    ItemsStart(v, vs, x);
    ItemsStart(w, ws, y);
    ItemsUnfold(v, vs, x);
    ItemsUnfold(w, ws, y);
    if vs == [] {
      Peel(CLOSE_BRACKET, x, y);
    } else {
      MoreItemsUnfold(v, vs[1..], x);
      MoreItemsUnfold(w, ws[1..], y);
      TextTellsValue(vs[0], ws[0], MoreItemsThen(v, vs[1..], x), MoreItemsThen(w, ws[1..], y));
      MoreItemsAgree(v, vs[1..], w, ws[1..], x, y);
    }
  }

  lemma {:induction false} MoreItemsAgree(v: Json, vs: seq<Json>, w: Json, ws: seq<Json>, x: Text, y: Text)
    requires ItemsWithin(vs, v) && ItemsWithin(ws, w) && MoreItemsThen(v, vs, x) == MoreItemsThen(w, ws, y)
    ensures |vs| == |ws| && (forall i :: 0 <= i < |vs| ==> Same(vs[i], ws[i])) && x == y
    decreases v, 0, |vs|
  {
    hide Stable, MoreItemsThen, Same;
    MoreItemsUnfold(v, vs, x);
    MoreItemsUnfold(w, ws, y);
    if vs == [] {
      Peel(CLOSE_BRACKET, x, y);
    } else {
      var moreV, moreW := MoreItemsThen(v, vs[1..], x), MoreItemsThen(w, ws[1..], y);
      Peel(COMMA, Stable(vs[0]) + moreV, Stable(ws[0]) + moreW);
      MoreItemsUnfold(v, vs[1..], x);
      MoreItemsUnfold(w, ws[1..], y);
      TextTellsValue(vs[0], ws[0], moreV, moreW);
      MoreItemsAgree(v, vs[1..], w, ws[1..], x, y);
    }
  }

  /* ---------------------------- objects ---------------------------- */

  function MembersThen(v: Json, es: seq<Entry>, x: Text): Text
    requires AllWithin(es, v)
  {
    Members(v, es) + ([CLOSE_BRACE] + x)
  }

  function MoreMembersThen(v: Json, es: seq<Entry>, x: Text): Text
    requires AllWithin(es, v)
  {
    MoreMembers(v, es) + ([CLOSE_BRACE] + x)
  }

  lemma MembersUnfold(v: Json, es: seq<Entry>, x: Text)
    requires AllWithin(es, v)
    ensures if es == [] then MembersThen(v, es, x) == [CLOSE_BRACE] + x
            else MembersThen(v, es, x) == Member(v, es[0]) + MoreMembersThen(v, es[1..], x)
    ensures MembersThen(v, es, x) != [] && (MembersThen(v, es, x)[0] == CLOSE_BRACE <==> es == [])
  {
    if es != [] { MemberStarts(v, es[0]); }
    hide Member, MoreMembers;
    if es != [] { Regroup3(Member(v, es[0]), MoreMembers(v, es[1..]), [CLOSE_BRACE] + x); }
  }

  lemma MemberStarts(v: Json, e: Entry)
    requires e.value < v && WellFormed(e.value)
    ensures Member(v, e) != [] && Member(v, e)[0] == QUOTE
  {
    QuoteStarts(e.key);
    hide Quote, Stable;
  }

  lemma MoreMembersUnfold(v: Json, es: seq<Entry>, x: Text)
    requires AllWithin(es, v)
    ensures if es == [] then MoreMembersThen(v, es, x) == [CLOSE_BRACE] + x
            else MoreMembersThen(v, es, x) == [COMMA] + (Member(v, es[0]) + MoreMembersThen(v, es[1..], x))
    ensures Ends(MoreMembersThen(v, es, x))
    ensures MoreMembersThen(v, es, x)[0] == if es == [] then CLOSE_BRACE else COMMA
  {
    hide Member;
    if es != [] {
      Regroup3([COMMA], Member(v, es[0]), MoreMembers(v, es[1..]));
      Regroup3([COMMA], Member(v, es[0]) + MoreMembers(v, es[1..]), [CLOSE_BRACE] + x);
      Regroup3(Member(v, es[0]), MoreMembers(v, es[1..]), [CLOSE_BRACE] + x);
    }
  }

  lemma ObjectUnfolds(v: Json, x: Text)
    requires WellFormed(v) && v.Obj?
    ensures AllWithin(Sort(v.entries), v)
    ensures Stable(v) + x == [OPEN_BRACE] + MembersThen(v, Sort(v.entries), x)
  {
    SortedWithin(v);
    hide Members, Sort;
  }

  lemma {:induction false} ObjectsAgree(v: Json, w: Json, x: Text, y: Text)
    requires WellFormed(v) && WellFormed(w) && v.Obj? && w.Obj? && Stable(v) + x == Stable(w) + y
    ensures Same(v, w) && x == y
    decreases v, 0, |v.entries| + 3
  {
    hide MembersThen, Stable, Sort, Same;
    ObjectUnfolds(v, x);
    ObjectUnfolds(w, y);
    var es, fs := Sort(v.entries), Sort(w.entries);
    Peel(OPEN_BRACE, MembersThen(v, es, x), MembersThen(w, fs, y));
    assert |es| == |v.entries| by { assert |multiset(es)| == |multiset(v.entries)|; }
    MembersAgree(v, es, w, fs, x, y);
    SortedPartners(v, w);
  }

  /** Entries paired off in key order are paired off in any order. */
  lemma SortedPartners(v: Json, w: Json)
    requires v.Obj? && w.Obj?
    requires var es, fs := Sort(v.entries), Sort(w.entries);
             |es| == |fs| && forall i :: 0 <= i < |es| ==> Partners(es[i], fs[i])
    ensures Same(v, w)
  {
    hide Partners, HasPartner, HasKey, Sort;
    var es, fs := Sort(v.entries), Sort(w.entries);
    forall e | e in v.entries ensures HasPartner(e, w.entries) {
      PartnerAbroad(v.entries, es, fs, w.entries, e);
    }
    forall j | 0 <= j < |w.entries| ensures HasKey(v.entries, w.entries[j].key) {
      KeyAbroad(v.entries, es, fs, w.entries, j);
    }
    PairedOffIsSame(v, w);
  }

  lemma PairedOffIsSame(v: Json, w: Json)
    requires v.Obj? && w.Obj? && KeysIn(w.entries, v.entries)
    requires forall e <- v.entries :: HasPartner(e, w.entries)
    ensures Same(v, w)
  {
  }

  lemma SameAreOff(v: Json, w: Json, e: Entry) returns (f: Entry)
    requires v.Obj? && w.Obj? && Same(v, w) && e in v.entries
    ensures f in w.entries && Partners(e, f)
  {
    f :| f in w.entries && e.key == f.key && Same(e.value, f.value);
  }

  lemma PartnerAbroad(from: seq<Entry>, es: seq<Entry>, fs: seq<Entry>, to: seq<Entry>, e: Entry)
    requires es == Sort(from) && fs == Sort(to) && e in from
    requires |es| == |fs| && forall p :: 0 <= p < |es| ==> Partners(es[p], fs[p])
    ensures HasPartner(e, to)
  {
    hide Partners, Sort;
    SortKeeps(from, e);
    var p :| 0 <= p < |es| && es[p] == e;
    SortKeeps(to, fs[p]);
  }

  lemma KeyAbroad(from: seq<Entry>, es: seq<Entry>, fs: seq<Entry>, to: seq<Entry>, j: nat)
    requires es == Sort(from) && fs == Sort(to) && j < |to|
    requires |es| == |fs| && forall p :: 0 <= p < |es| ==> Partners(es[p], fs[p])
    ensures HasKey(from, to[j].key)
  {
    hide Partners, Sort;
    SortKeeps(to, to[j]);
    var p :| 0 <= p < |fs| && fs[p] == to[j];
    SortKeeps(from, es[p]);
    PartnersShareKeys(es[p], fs[p]);
  }

  lemma PartnersShareKeys(e: Entry, f: Entry)
    requires Partners(e, f)
    ensures e.key == f.key
  {
  }

  lemma MemberUnfolds(v: Json, e: Entry, x: Text)
    requires e.value < v && WellFormed(e.value)
    ensures Member(v, e) + x == Quote(e.key) + ([COLON] + (Stable(e.value) + x))
  {
    hide Quote, Stable;
  }

  lemma {:induction false} MemberTells(v: Json, e: Entry, w: Json, f: Entry, x: Text, y: Text)
    requires e.value < v && WellFormed(e.value) && f.value < w && WellFormed(f.value) && Ends(x) && Ends(y)
    requires Member(v, e) + x == Member(w, f) + y
    ensures Partners(e, f) && x == y
    decreases v, 0, 0
  {
    hide Stable, Quote, Member, Same;
    MemberUnfolds(v, e, x);
    MemberUnfolds(w, f, y);
    var left, right := Stable(e.value) + x, Stable(f.value) + y;
    QuoteIsUnique(e.key, f.key, [COLON] + left, [COLON] + right);
    Peel(COLON, left, right);
    TextTellsValue(e.value, f.value, x, y);
  }

  lemma {:induction false} MembersAgree(v: Json, es: seq<Entry>, w: Json, fs: seq<Entry>, x: Text, y: Text)
    requires AllWithin(es, v) && AllWithin(fs, w) && MembersThen(v, es, x) == MembersThen(w, fs, y)
    ensures |es| == |fs| && (forall i :: 0 <= i < |es| ==> Partners(es[i], fs[i])) && x == y
    decreases v, 0, |es| + 2
  {
    hide Member, MembersThen, MoreMembersThen, Partners;
    MembersUnfold(v, es, x);
    MembersUnfold(w, fs, y);
    if es == [] {
      Peel(CLOSE_BRACE, x, y);
    } else {
      var moreE, moreF := MoreMembersThen(v, es[1..], x), MoreMembersThen(w, fs[1..], y);
      MoreMembersUnfold(v, es[1..], x);
      MoreMembersUnfold(w, fs[1..], y);
      MemberTells(v, es[0], w, fs[0], moreE, moreF);
      MoreMembersAgree(v, es[1..], w, fs[1..], x, y);
    }
  }

  lemma {:induction false} MoreMembersAgree(v: Json, es: seq<Entry>, w: Json, fs: seq<Entry>, x: Text, y: Text)
    requires AllWithin(es, v) && AllWithin(fs, w) && MoreMembersThen(v, es, x) == MoreMembersThen(w, fs, y)
    ensures |es| == |fs| && (forall i :: 0 <= i < |es| ==> Partners(es[i], fs[i])) && x == y
    decreases v, 0, |es| + 1
  {
    hide Member, MoreMembersThen, Partners;
    MoreMembersUnfold(v, es, x);
    MoreMembersUnfold(w, fs, y);
    if es == [] {
      Peel(CLOSE_BRACE, x, y);
    } else {
      var moreE, moreF := MoreMembersThen(v, es[1..], x), MoreMembersThen(w, fs[1..], y);
      Peel(COMMA, Member(v, es[0]) + moreE, Member(w, fs[0]) + moreF);
      MoreMembersUnfold(v, es[1..], x);
      MoreMembersUnfold(w, fs[1..], y);
      MemberTells(v, es[0], w, fs[0], moreE, moreF);
      MoreMembersAgree(v, es[1..], w, fs[1..], x, y);
    }
  }

  /* ---------------------------- one value, one text ---------------------------- */

  predicate InKeyOrder(es: seq<Entry>) { forall i, j :: 0 <= i < j < |es| ==> Less(es[i].key, es[j].key) }

  predicate KeysDiffer(es: seq<Entry>) { forall i, j :: 0 <= i < j < |es| ==> es[i].key != es[j].key }

  lemma InsertHas(e: Entry, sorted: seq<Entry>, x: Entry)
    ensures x in Insert(e, sorted) <==> x == e || x in sorted
  {
    assert x in multiset(Insert(e, sorted)) <==> x in multiset(sorted) || x == e;
  }

  lemma {:induction false} InsertKeepsOrder(e: Entry, sorted: seq<Entry>)
    requires InKeyOrder(sorted) && forall x <- sorted :: x.key != e.key
    ensures InKeyOrder(Insert(e, sorted))
    decreases |sorted|
  {
    hide Less;
    if sorted != [] {
      var head := sorted[0];
      if Less(head.key, e.key) {
        InsertKeepsOrder(e, sorted[1..]);
        var rest := Insert(e, sorted[1..]);
        forall j | 0 <= j < |rest| ensures Less(head.key, rest[j].key) {
          InsertHas(e, sorted[1..], rest[j]);
        }
      } else {
        OneIsLess(head.key, e.key);
        forall j | 0 < j < |sorted| ensures Less(e.key, sorted[j].key) {
          LessIsTransitive(e.key, head.key, sorted[j].key);
        }
      }
    }
  }

  lemma {:induction false} SortOrders(es: seq<Entry>)
    requires KeysDiffer(es)
    ensures InKeyOrder(Sort(es))
    decreases |es|
  {
    hide Insert;
    if es != [] {
      SortOrders(es[1..]);
      forall x | x in Sort(es[1..]) ensures x.key != es[0].key { SortKeeps(es[1..], x); }
      InsertKeepsOrder(es[0], Sort(es[1..]));
    }
  }

  lemma KeyAt(es: seq<Entry>, fs: seq<Entry>, i: nat) returns (j: nat)
    requires KeysIn(es, fs) && i < |es|
    ensures j < |fs| && es[i].key == fs[j].key
  {
    assert HasKey(fs, es[i].key);
    j :| j < |fs| && fs[j].key == es[i].key;
  }

  lemma EmptyTogether(es: seq<Entry>, fs: seq<Entry>)
    requires KeysIn(es, fs) && KeysIn(fs, es)
    ensures es == [] <==> fs == []
  {
    hide KeysIn;
    if es != [] { var j := KeyAt(es, fs, 0); }
    if fs != [] { var i := KeyAt(fs, es, 0); }
  }

  /** Neither first key can be behind the other. */
  lemma FirstKeysAgree(es: seq<Entry>, fs: seq<Entry>)
    requires InKeyOrder(es) && InKeyOrder(fs) && KeysIn(es, fs) && KeysIn(fs, es) && es != [] && fs != []
    ensures es[0].key == fs[0].key
  {
    hide Less, KeysIn;
    var a, b := es[0].key, fs[0].key;
    var j := KeyAt(es, fs, 0);
    var i := KeyAt(fs, es, 0);
    assert a == b || Less(b, a);
    assert a == b || Less(a, b);
    hide InKeyOrder;
    if Less(a, b) && Less(b, a) { LessIsTransitive(a, b, a); }
    NeverLessThanItself(a);
  }

  lemma TailKeysIn(es: seq<Entry>, fs: seq<Entry>)
    requires InKeyOrder(es) && KeysIn(es, fs) && es != [] && fs != [] && es[0].key == fs[0].key
    ensures KeysIn(es[1..], fs[1..])
  {
    forall i | 0 <= i < |es[1..]| ensures HasKey(fs[1..], es[1..][i].key) {
      hide Less, KeysIn;
      var j := KeyAt(es, fs, i + 1);
      assert Less(es[0].key, es[i + 1].key);
      NeverLessThanItself(es[0].key);
      assert fs[1..][j - 1] == fs[j];
    }
    hide Less, InKeyOrder, HasKey;
  }

  /** The same keys in key order are the same sequence of keys. */
  lemma {:induction false} KeyOrderIsUnique(es: seq<Entry>, fs: seq<Entry>)
    requires InKeyOrder(es) && InKeyOrder(fs) && KeysIn(es, fs) && KeysIn(fs, es)
    ensures |es| == |fs| && forall i :: 0 <= i < |es| ==> es[i].key == fs[i].key
    decreases |es|
  {
    hide Less, KeysIn;
    EmptyTogether(es, fs);
    if es != [] {
      FirstKeysAgree(es, fs);
      TailKeysIn(es, fs);
      TailKeysIn(fs, es);
      KeyOrderIsUnique(es[1..], fs[1..]);
    }
  }

  ghost predicate Paired(es: seq<Entry>, fs: seq<Entry>) {
    |es| == |fs| && forall i :: 0 <= i < |es| ==> Partners(es[i], fs[i])
  }

  /** Sorting lines up the entries of two objects that are the same. */
  lemma SameObjectsPair(v: Json, w: Json)
    requires WellFormed(v) && WellFormed(w) && v.Obj? && w.Obj? && Same(v, w)
    ensures Paired(Sort(v.entries), Sort(w.entries))
  {
    var es, fs := Sort(v.entries), Sort(w.entries);
    SortOrders(v.entries);
    SortOrders(w.entries);
    SortedHaveTheSameKeys(v, w);
    hide Less, Sort, KeysIn;
    KeyOrderIsUnique(es, fs);
    forall p | 0 <= p < |es| ensures Partners(es[p], fs[p]) {
      SortedPartner(v, w, p);
    }
  }

  lemma SortedKeysIn(es: seq<Entry>, fs: seq<Entry>)
    requires KeysIn(es, fs)
    ensures KeysIn(Sort(es), Sort(fs))
  {
    hide Sort;
    forall p | 0 <= p < |Sort(es)| ensures HasKey(Sort(fs), Sort(es)[p].key) {
      hide KeysIn;
      SortKeeps(es, Sort(es)[p]);
      var i :| 0 <= i < |es| && es[i] == Sort(es)[p];
      var j := KeyAt(es, fs, i);
      SortKeeps(fs, fs[j]);
    }
    hide HasKey;
  }

  lemma SameKeys(v: Json, w: Json)
    requires v.Obj? && w.Obj? && Same(v, w)
    ensures KeysIn(v.entries, w.entries) && KeysIn(w.entries, v.entries)
  {
    forall i | 0 <= i < |v.entries| ensures HasKey(w.entries, v.entries[i].key) {
      hide Same;
      var f := SameAreOff(v, w, v.entries[i]);
      PartnersShareKeys(v.entries[i], f);
    }
    hide HasKey;
  }

  lemma SortedHaveTheSameKeys(v: Json, w: Json)
    requires v.Obj? && w.Obj? && Same(v, w)
    ensures KeysIn(Sort(v.entries), Sort(w.entries)) && KeysIn(Sort(w.entries), Sort(v.entries))
  {
    SameKeys(v, w);
    SortedKeysIn(v.entries, w.entries);
    SortedKeysIn(w.entries, v.entries);
    hide Sort, Same, KeysIn;
  }

  lemma SameValueUnderAKey(v: Json, w: Json, i: nat, k: nat)
    requires WellFormed(w) && v.Obj? && w.Obj? && Same(v, w)
    requires i < |v.entries| && k < |w.entries| && v.entries[i].key == w.entries[k].key
    ensures Partners(v.entries[i], w.entries[k])
  {
    hide Same, WellFormed;
    var f := SameAreOff(v, w, v.entries[i]);
    var j :| 0 <= j < |w.entries| && w.entries[j] == f;
    OneOfAKey(w, j, k);
  }

  lemma OneOfAKey(w: Json, j: nat, k: nat)
    requires WellFormed(w) && w.Obj? && j < |w.entries| && k < |w.entries| && w.entries[j].key == w.entries[k].key
    ensures j == k
  {
  }

  lemma SortedPartner(v: Json, w: Json, p: nat)
    requires WellFormed(w) && v.Obj? && w.Obj? && Same(v, w)
    requires p < |Sort(v.entries)| && p < |Sort(w.entries)| && Sort(v.entries)[p].key == Sort(w.entries)[p].key
    ensures Partners(Sort(v.entries)[p], Sort(w.entries)[p])
  {
    hide Sort, Same, Partners;
    var e, f := Sort(v.entries)[p], Sort(w.entries)[p];
    SortKeeps(v.entries, e);
    SortKeeps(w.entries, f);
    var i :| 0 <= i < |v.entries| && v.entries[i] == e;
    var k :| 0 <= k < |w.entries| && w.entries[k] == f;
    SameValueUnderAKey(v, w, i, k);
  }

  lemma {:induction false} SameItemsSameText(v: Json, vs: seq<Json>, w: Json, ws: seq<Json>)
    requires ItemsWithin(vs, v) && ItemsWithin(ws, w) && |vs| == |ws|
    requires forall i :: 0 <= i < |vs| ==> Same(vs[i], ws[i])
    ensures MoreItems(v, vs) == MoreItems(w, ws) && Items(v, vs) == Items(w, ws)
    decreases v, 0, |vs|
  {
    if vs != [] {
      SameHasOneText(vs[0], ws[0]);
      SameItemsSameText(v, vs[1..], w, ws[1..]);
    }
    hide Stable, Same;
  }

  lemma {:induction false} SameMembersSameText(v: Json, es: seq<Entry>, w: Json, fs: seq<Entry>)
    requires AllWithin(es, v) && AllWithin(fs, w) && Paired(es, fs)
    ensures MoreMembers(v, es) == MoreMembers(w, fs) && Members(v, es) == Members(w, fs)
    decreases v, 0, |es|
  {
    if es != [] {
      SameHasOneText(es[0].value, fs[0].value);
      assert Member(v, es[0]) == Member(w, fs[0]);
      hide Member;
      SameMembersSameText(v, es[1..], w, fs[1..]);
    }
  }

  /** Values that are the same up to key order have one text. */
  lemma {:induction false} SameHasOneText(v: Json, w: Json)
    requires WellFormed(v) && WellFormed(w) && Same(v, w)
    ensures Stable(v) == Stable(w)
    decreases v, 1, 0
  {
    hide Sort, Quote, NumberText;
    if ReadsAsNull(v) {
      NullHasOneText(v);
      NullHasOneText(w);
    } else if v.Arr? {
      SameItemsSameText(v, v.items, w, w.items);
    } else if v.Obj? {
      SortedWithin(v);
      SortedWithin(w);
      SameObjectsPair(v, w);
      SameMembersSameText(v, Sort(v.entries), w, Sort(w.entries));
    }
  }

  lemma NullHasOneText(v: Json)
    requires WellFormed(v) && ReadsAsNull(v)
    ensures Stable(v) == NULL_TEXT
  {
  }

  /** `stableStringify` is exact: equal texts for equal values, and only for them. */
  lemma StableIsExact(v: Json, w: Json)
    requires WellFormed(v) && WellFormed(w)
    ensures Stable(v) == Stable(w) <==> Same(v, w)
  {
    if Stable(v) == Stable(w) {
      TextTellsValue(v, w, [], []);
    }
    if Same(v, w) { SameHasOneText(v, w); }
    hide Stable, Same;
  }

  /** So being the same up to key order is an equivalence, as its definition does not say outright. */
  lemma SameIsAnEquivalence(u: Json, v: Json, w: Json)
    requires WellFormed(u) && WellFormed(v) && WellFormed(w)
    ensures Same(v, v)
    ensures Same(v, w) <==> Same(w, v)
    ensures Same(u, v) && Same(v, w) ==> Same(u, w)
  {
    hide Stable, Same;
    StableIsExact(v, v);
    StableIsExact(v, w);
    StableIsExact(w, v);
    StableIsExact(u, v);
    StableIsExact(u, w);
  }

  /* ---------------------------- as written ---------------------------- */

  /** The words, and what is empty. */
  lemma WordsAsWritten()
    ensures Stable(Null) == [0x6e, 0x75, 0x6c, 0x6c] && Stable(Bool(true)) == [0x74, 0x72, 0x75, 0x65]
    ensures Stable(Bool(false)) == [0x66, 0x61, 0x6c, 0x73, 0x65]
    ensures Stable(Arr([])) == [0x5b, 0x5d] && Stable(Obj([])) == [0x7b, 0x7d]
  {
    SortedWithin(Obj([]));
  }

  /** Items stand in brackets with a comma between them, in their order. */
  lemma ItemsAsWritten(a: Json, b: Json)
    requires WellFormed(a) && WellFormed(b)
    ensures WellFormed(Arr([a, b])) && Stable(Arr([a, b])) == [0x5b] + (Stable(a) + ([0x2c] + Stable(b))) + [0x5d]
  {
    var v := Arr([a, b]);
    assert v.items[1..] == [b] && [b][1..] == [];
    assert MoreItems(v, [b]) == [COMMA] + Stable(b) + [];
  }

  lemma TwoSorted(a: Entry, b: Entry)
    requires Less(a.key, b.key)
    ensures Sort([a, b]) == [a, b] && Sort([b, a]) == [a, b]
  {
    NeverLessThanItself(a.key);
    if Less(b.key, a.key) { LessIsTransitive(a.key, b.key, a.key); }
    hide Less;
    assert [a, b][1..] == [b] && [b, a][1..] == [a] && [a][1..] == [] && [b][1..] == [];
    assert Sort([b]) == [b] && Sort([a]) == [a];
    assert Insert(b, []) == [b];
  }

  /** Members stand in braces, in the order of their keys whichever way round they came. */
  lemma MembersAsWritten(a: Entry, b: Entry)
    requires WellFormed(a.value) && WellFormed(b.value) && Less(a.key, b.key)
    ensures WellFormed(Obj([a, b])) && WellFormed(Obj([b, a]))
    ensures Stable(Obj([a, b])) == Stable(Obj([b, a]))
            == [0x7b] + (Quote(a.key) + [0x3a] + Stable(a.value) + ([0x2c] + (Quote(b.key) + [0x3a] + Stable(b.value)))) + [0x7d]
  {
    NeverLessThanItself(a.key);
    TwoSorted(a, b);
    hide Less, Sort, Quote;
    assert a.key != b.key;
    TwoMembers(Obj([a, b]), a, b);
    TwoMembers(Obj([b, a]), a, b);
  }

  lemma TwoMembers(v: Json, a: Entry, b: Entry)
    requires v.Obj? && WellFormed(v) && Sort(v.entries) == [a, b] && AllWithin([a, b], v)
    ensures Stable(v) == [0x7b] + (Quote(a.key) + [0x3a] + Stable(a.value)
                                   + ([0x2c] + (Quote(b.key) + [0x3a] + Stable(b.value)))) + [0x7d]
  {
    hide Sort, Quote;
    assert [a, b][1..] == [b] && [b][1..] == [] && [a, b][1] == b;
    assert MoreMembers(v, []) == [];
    assert MoreMembers(v, [b]) == [COMMA] + Member(v, b) + [];
    assert Members(v, [a, b]) == Member(v, a) + MoreMembers(v, [b]);
  }
}
