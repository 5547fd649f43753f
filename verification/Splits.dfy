/** Dividing an amount between the subaccounts of a split and the merchant. */
module Splits {
  import S = Storage
  import E = EngineSpec

  datatype Kind = Percentage | Flat

  /** Shares are percentages of the amount, or flat amounts; either may be fractional. */
  datatype Split = Split(kind: Kind, shares: seq<real>)

  function Whole(): int -> int { (x: int) => x }

  function Total(xs: seq<int>): int { S.Sum(xs, Whole()) }

  function TotalShare(shares: seq<real>): real {
    if shares == [] then 0.0 else TotalShare(shares[..|shares| - 1]) + shares[|shares| - 1]
  }

  /** `createSplit`: no empty split, and no percentages beyond the whole. */
  function CreateSplit(kind: Kind, shares: seq<real>): E.Result<Split> {
    if shares == [] then E.Err(E.ValidationFailed)
    else if kind == Percentage && TotalShare(shares) > 100.0 then E.Err(E.ValidationFailed)
    else E.Ok(Split(kind, shares))
  }

  /** A percentage of an amount, before rounding. */
  function Exact(amount: int, share: real): real { amount as real * share / 100.0 }

  function Raw(kind: Kind, share: real, amount: int): int {
    if kind == Percentage then Exact(amount, share).Floor else share.Floor
  }

  function Min(a: int, b: int): int { if a < b then a else b }

  /** What each entry gets, in order: its share, but no more than is left. */
  function Parts(s: Split, amount: int): (parts: seq<int>)
    ensures |parts| == |s.shares|
    decreases |s.shares|
  {
    if s.shares == [] then [] else
    var n := |s.shares| - 1;
    var before := Parts(s.(shares := s.shares[..n]), amount);
    before + [E.Max0(Min(Raw(s.kind, s.shares[n], amount), amount - Total(before)))]
  }

  lemma OnePart(s: Split, amount: int, k: nat)
    requires k < |s.shares|
    ensures var before := Parts(s.(shares := s.shares[..k]), amount);
            var part := E.Max0(Min(Raw(s.kind, s.shares[k], amount), amount - Total(before)));
            && Parts(s.(shares := s.shares[..k + 1]), amount) == before + [part]
            && Total(before + [part]) == Total(before) + part
  {
    hide Raw, Min;
    var upTo := s.(shares := s.shares[..k + 1]);
    assert upTo.shares[..k] == s.shares[..k] && upTo.shares[k] == s.shares[k];
    var before := Parts(s.(shares := s.shares[..k]), amount);
    S.SumOne(before, E.Max0(Min(Raw(s.kind, s.shares[k], amount), amount - Total(before))), Whole());
  }

  lemma NoPartsYet(s: Split, amount: int)
    ensures Parts(s.(shares := s.shares[..0]), amount) == [] && Total([]) == 0
  {
  }

  /** No part is negative, and together they never exceed a non-negative amount. */
  lemma {:induction false} PartsStayWithin(s: Split, amount: int)
    ensures forall p <- Parts(s, amount) :: p >= 0
    ensures amount >= 0 ==> 0 <= Total(Parts(s, amount)) <= amount
    decreases |s.shares|
  {
    if s.shares != [] {
      var n := |s.shares| - 1;
      PartsStayWithin(s.(shares := s.shares[..n]), amount);
      OnePart(s, amount, n);
      assert s.shares[..n + 1] == s.shares;
      hide Parts, Total, Raw;
    }
  }

  /** The parts and the merchant's remainder always make up the amount. */
  method ComputeSplit(s: Split, amount: int) returns (parts: seq<int>, merchant: int)
    ensures parts == Parts(s, amount) && Total(parts) + merchant == amount
    ensures forall p <- parts :: p >= 0
    ensures amount >= 0 ==> 0 <= merchant <= amount
  {
    hide Raw, Parts, Total;
    PartsStayWithin(s, amount);
    NoPartsYet(s, amount);
    parts := [];
    var given := 0;
    for k := 0 to |s.shares|
      invariant parts == Parts(s.(shares := s.shares[..k]), amount)
      invariant given == Total(parts)
    {
      OnePart(s, amount, k);
      var raw := Raw(s.kind, s.shares[k], amount);
      var left := amount - given;
      var share := if raw < left then raw else left;
      if share < 0 { share := 0; }
      given := given + share;
      parts := parts + [share];
    }
    assert s.shares[..|s.shares|] == s.shares;
    merchant := amount - given;
  }

  /* ---------------------------- percentages ---------------------------- */

  predicate NonNegative(shares: seq<real>) { forall k :: 0 <= k < |shares| ==> shares[k] >= 0.0 }

  lemma {:induction false} PrefixShareIsLess(shares: seq<real>, k: nat)
    requires NonNegative(shares) && k <= |shares|
    ensures 0.0 <= TotalShare(shares[..k]) <= TotalShare(shares)
    decreases |shares|
  {
    if k < |shares| {
      assert shares[..|shares| - 1][..k] == shares[..k];
      PrefixShareIsLess(shares[..|shares| - 1], k);
    } else {
      assert shares[..k] == shares;
      if shares != [] { PrefixShareIsLess(shares[..|shares| - 1], |shares| - 1); }
    }
  }

  lemma ShareOfAmount(amount: nat, a: real, b: real)
    ensures amount as real * (a + b) / 100.0 == amount as real * a / 100.0 + amount as real * b / 100.0
    ensures a <= b ==> amount as real * a / 100.0 <= amount as real * b / 100.0
    ensures b >= 0.0 ==> amount as real * b / 100.0 >= 0.0
    ensures amount as real * 100.0 / 100.0 == amount as real
  {
  }

  lemma FloorBounds(x: real)
    ensures x.Floor as real <= x < x.Floor as real + 1.0
  {
  }

  /** One more percentage fits in what the earlier ones left, so it is not capped. */
  lemma NextIsNotCapped(amount: nat, before: int, soFar: real, share: real)
    requires 0.0 <= soFar && 0.0 <= share && soFar + share <= 100.0
    requires before as real <= Exact(amount, soFar)
    ensures 0 <= Exact(amount, share).Floor <= amount - before
  {
    ShareOfAmount(amount, soFar, share);
    ShareOfAmount(amount, soFar + share, 100.0);
    hide Exact;
    assert Exact(amount, share) >= 0.0 && before as real + Exact(amount, share) <= amount as real by {
      ExactParts(amount, soFar, share);
    }
    FloorBounds(Exact(amount, share));
  }

  lemma ExactParts(amount: nat, soFar: real, share: real)
    requires 0.0 <= soFar && 0.0 <= share && soFar + share <= 100.0
    ensures Exact(amount, soFar) + Exact(amount, share) <= amount as real && Exact(amount, share) >= 0.0
  {
    ShareOfAmount(amount, soFar, share);
    ShareOfAmount(amount, soFar + share, 100.0);
  }

  lemma OneMoreFloor(amount: nat, before: int, n: nat, soFar: real, share: real)
    requires before as real <= Exact(amount, soFar) <= before as real + n as real
    ensures var after := before + Exact(amount, share).Floor;
            after as real <= Exact(amount, soFar + share) < after as real + (n + 1) as real
  {
    ShareOfAmount(amount, soFar, share);
    assert Exact(amount, soFar + share) == Exact(amount, soFar) + Exact(amount, share);
    hide Exact;
    FloorBounds(Exact(amount, share));
  }

  lemma UncappedPart(s: Split, before: Split, amount: nat)
    requires s.kind == Percentage && s.shares != [] && before == s.(shares := s.shares[..|s.shares| - 1])
    requires 0 <= Exact(amount, s.shares[|s.shares| - 1]).Floor <= amount - Total(Parts(before, amount))
    ensures var part := Exact(amount, s.shares[|s.shares| - 1]).Floor;
            && Parts(s, amount) == Parts(before, amount) + [part]
            && Total(Parts(s, amount)) == Total(Parts(before, amount)) + part
  {
    hide Exact;
    var part := Exact(amount, s.shares[|s.shares| - 1]).Floor;
    S.SumOne(Parts(before, amount), part, Whole());
  }

  /** Percentages within the whole are never capped: each entry gets its floor, wherever it stands. */
  lemma {:induction false} PercentagesAreFloors(s: Split, amount: nat)
    requires s.kind == Percentage && NonNegative(s.shares) && TotalShare(s.shares) <= 100.0
    ensures forall k :: 0 <= k < |s.shares| ==> Parts(s, amount)[k] == Exact(amount, s.shares[k]).Floor
    ensures Total(Parts(s, amount)) as real <= Exact(amount, TotalShare(s.shares))
            <= Total(Parts(s, amount)) as real + |s.shares| as real
    ensures s.shares != [] ==> Exact(amount, TotalShare(s.shares)) < Total(Parts(s, amount)) as real + |s.shares| as real
    decreases |s.shares|
  {
    if s.shares == [] {
      assert Exact(amount, 0.0) == 0.0;
    } else {
      var n := |s.shares| - 1;
      var before := s.(shares := s.shares[..n]);
      var soFar, share := TotalShare(before.shares), s.shares[n];
      assert TotalShare(s.shares) == soFar + share;
      PrefixShareIsLess(s.shares, n);
      hide Exact, Total, TotalShare, Parts;
      PercentagesAreFloors(before, amount);
      NextIsNotCapped(amount, Total(Parts(before, amount)), soFar, share);
      UncappedPart(s, before, amount);
      OneMoreFloor(amount, Total(Parts(before, amount)), n, soFar, share);
    }
  }

  /** Rounding down leaves the merchant the exact remainder and less than one minor unit an entry. */
  lemma MerchantGainsUnderOneEach(kind: Kind, shares: seq<real>, amount: nat)
    requires CreateSplit(kind, shares).Ok? && kind == Percentage && NonNegative(shares)
    ensures var s := CreateSplit(kind, shares).value;
            var merchant, exact := amount - Total(Parts(s, amount)), amount as real - Exact(amount, TotalShare(shares));
            exact <= merchant as real < exact + |shares| as real
  {
    PercentagesAreFloors(Split(kind, shares), amount);
    hide Exact, Parts;
  }

  lemma HundredthsOf(whole: real)
    ensures whole == whole / 100.0 * 100.0
  {
  }

  /** Each entry of an accepted percentage split gets so many hundredths of the amount, less the part of a minor unit. */
  lemma EachGetsItsPercentage(s: Split, amount: nat, k: nat)
    requires s.kind == Percentage && NonNegative(s.shares) && TotalShare(s.shares) <= 100.0 && k < |s.shares|
    ensures var part := Parts(s, amount)[k];
            part as real * 100.0 <= amount as real * s.shares[k] < (part + 1) as real * 100.0
  {
    PercentagesAreFloors(s, amount);
    HundredthsOf(amount as real * s.shares[k]);
    FloorBounds(Exact(amount, s.shares[k]));
    hide Parts, TotalShare, Exact;
    assert Exact(amount, s.shares[k]) == amount as real * s.shares[k] / 100.0 by { ExactIs(amount, s.shares[k]); }
  }

  lemma ExactIs(amount: nat, share: real)
    ensures Exact(amount, share) == amount as real * share / 100.0
  {
  }

  /** A split is refused exactly when it is empty, or of percentages that come to more than a hundred. */
  lemma CreatedExactlyWhen(kind: Kind, shares: seq<real>)
    ensures CreateSplit(kind, shares).Ok? <==> |shares| > 0 && (kind == Percentage ==> TotalShare(shares) <= 100.0)
    ensures CreateSplit(kind, shares).Ok? ==> CreateSplit(kind, shares).value == Split(kind, shares)
  {
    hide TotalShare;
  }

  lemma {:induction false} EqualSharesTotal(share: real, shares: seq<real>)
    requires forall k :: 0 <= k < |shares| ==> shares[k] == share
    ensures TotalShare(shares) == share * |shares| as real
  {
    if shares != [] {
      EqualSharesTotal(share, shares[..|shares| - 1]);
      assert share * |shares| as real == share * (|shares| - 1) as real + share;
    }
  }

  /** An entry that asks for a negative share gets nothing, and no entry gets more than the earlier ones left. */
  lemma NoMoreThanIsLeft(s: Split, amount: nat, k: nat)
    requires k < |s.shares|
    ensures 0 <= Parts(s.(shares := s.shares[..k + 1]), amount)[k]
            <= amount - Total(Parts(s.(shares := s.shares[..k]), amount))
    ensures s.shares[k] < 0.0 ==> Parts(s.(shares := s.shares[..k + 1]), amount)[k] == 0
  {
    OnePart(s, amount, k);
    PartsStayWithin(s.(shares := s.shares[..k]), amount);
    if s.shares[k] < 0.0 { NegativeIsNothing(s.kind, s.shares[k], amount); }
    hide Parts, Total, Raw, TotalShare;
  }

  lemma NegativeIsNothing(kind: Kind, share: real, amount: nat)
    requires share < 0.0
    ensures Raw(kind, share, amount) <= 0
  {
    if kind == Percentage {
      assert amount as real * share <= 0.0;
      FloorBounds(amount as real * share / 100.0);
    } else {
      FloorBounds(share);
    }
  }

  /* ---------------------------- flat shares ---------------------------- */

  function FlatTotal(shares: seq<real>): int {
    if shares == [] then 0 else FlatTotal(shares[..|shares| - 1]) + shares[|shares| - 1].Floor
  }

  lemma {:induction false} FlatTotalGrows(shares: seq<real>)
    requires NonNegative(shares)
    ensures FlatTotal(shares) >= 0
  {
    if shares != [] {
      FlatTotalGrows(shares[..|shares| - 1]);
      FloorBounds(shares[|shares| - 1]);
    }
  }

  lemma LastFlatPart(s: Split, before: Split, amount: int)
    requires s.kind == Flat && s.shares != [] && before == s.(shares := s.shares[..|s.shares| - 1])
    ensures var part := E.Max0(Min(s.shares[|s.shares| - 1].Floor, amount - Total(Parts(before, amount))));
            && Parts(s, amount) == Parts(before, amount) + [part]
            && Total(Parts(s, amount)) == Total(Parts(before, amount)) + part
  {
    hide Min, Parts, Total;
    OnePart(s, amount, |s.shares| - 1);
    assert s.shares[..|s.shares|] == s.shares;
  }

  /** Flat shares are taken in order until the amount runs out: together they take all they ask, or all there is. */
  lemma {:induction false} FlatSharesTakeAllOrWhatTheyAsk(s: Split, amount: nat)
    requires s.kind == Flat && NonNegative(s.shares)
    ensures Total(Parts(s, amount)) == Min(FlatTotal(s.shares), amount)
    decreases |s.shares|
  {
    if s.shares != [] {
      var before := s.(shares := s.shares[..|s.shares| - 1]);
      FloorBounds(s.shares[|s.shares| - 1]);
      hide Parts, Total;
      LastFlatPart(s, before, amount);
      FlatTotalGrows(before.shares);
      FlatSharesTakeAllOrWhatTheyAsk(before, amount);
    }
  }

  /** When there is enough for all of them, each flat share is paid in full. */
  lemma {:induction false} FlatSharesArePaidInFull(s: Split, amount: nat, k: nat)
    requires s.kind == Flat && NonNegative(s.shares) && FlatTotal(s.shares) <= amount && k < |s.shares|
    ensures Parts(s, amount)[k] == s.shares[k].Floor
    decreases |s.shares|
  {
    var before := s.(shares := s.shares[..|s.shares| - 1]);
    FloorBounds(s.shares[|s.shares| - 1]);
    hide Parts, Total;
    LastFlatPart(s, before, amount);
    FlatTotalGrows(before.shares);
    if k < |before.shares| {
      FlatSharesArePaidInFull(before, amount, k);
    } else {
      FlatSharesTakeAllOrWhatTheyAsk(before, amount);
    }
  }
}
