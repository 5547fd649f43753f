/** What every transfer's ledger rows add up to, and how much of it can come back to its source. */
module Transfers {
  import opened Options
  import opened StateMachine
  import opened Storage
  import opened EngineSpec

  predicate IsTransferRow(r: Row) {
    r.reason.TransferMade? || r.reason.TransferReversal? || r.reason.TransferReleased?
  }

  predicate IsRowOf(t: nat, r: Row) { IsTransferRow(r) && r.resource == Some(TransferId(t)) }

  /**
   * What the ledger says of one transfer: what creating it debited and credited, what reversals
   * moved back and out again, and what its release paid back and took off the other side.
   */
  datatype Tally = Tally(
    debited: int, arrived: int, back: int, out: int, released: int, takenBack: int, releases: int)
  {
    function Plus(more: Tally): Tally {
      Tally(debited + more.debited, arrived + more.arrived, back + more.back, out + more.out,
            released + more.released, takenBack + more.takenBack, releases + more.releases)
    }

    /** The transfer's net effect on all pots together. */
    function Moved(): int { arrived - debited + back - out + released - takenBack }

    /** What reversals and the release have credited back to the source. */
    function Returned(): int { back + released }
  }

  const BLANK := Tally(0, 0, 0, 0, 0, 0, 0)

  datatype Part = Debited | Arrived | Back | Out | Released | TakenBack

  function PartOf(r: Row): Part {
    if r.reason.TransferMade? then (if r.credit then Arrived else Debited)
    else if r.reason.TransferReversal? then (if r.credit then Back else Out)
    else if r.credit then Released else TakenBack
  }

  function InPart(t: nat, part: Part): Row -> int {
    (r: Row) => if IsRowOf(t, r) && PartOf(r) == part then r.amount else 0
  }

  function ReleasedBy(t: nat): Row -> int { (r: Row) => if IsRowOf(t, r) && PartOf(r) == Released then 1 else 0 }

  function TallyOf(rows: seq<Row>, t: nat): Tally {
    Tally(Sum(rows, InPart(t, Debited)), Sum(rows, InPart(t, Arrived)), Sum(rows, InPart(t, Back)),
          Sum(rows, InPart(t, Out)), Sum(rows, InPart(t, Released)), Sum(rows, InPart(t, TakenBack)),
          Sum(rows, ReleasedBy(t)))
  }

  /* ---------------------------- what the calls asked for ---------------------------- */

  /** What a releasing transition found: what was still out, and what the metadata it read said. */
  datatype Release = Release(outstanding: int, reserved: bool, fee: int)

  /** What creating a transfer asked for, and what its release, if there was one, went by. */
  datatype Terms = Terms(reserved: bool, fee: int, refundable: bool, arrives: bool, release: Option<Release>) {
    /** The part of what creation debited beyond the amount that a failure is to give back. */
    function RefundableFee(): int { if reserved && refundable then fee else 0 }

    /** What the release credited to the source. */
    function Paid(): int {
      if release.Some? && release.value.reserved then release.value.outstanding + release.value.fee else 0
    }

    /** What it should have, by the terms of creation. */
    function Owed(): int {
      if release.Some? && reserved then release.value.outstanding + RefundableFee() else 0
    }

    /** The metadata the release read says what creation did. */
    predicate Agreed() { release.Some? ==> AgreesWith(release.value.reserved, release.value.fee) }

    predicate AgreesWith(readReserved: bool, readFee: int) {
      readReserved == reserved && (reserved ==> readFee == RefundableFee())
    }
  }

  function TermsOf(input: TransferInput): Terms {
    Terms(input.reserve, Max0(Default(input.fee, 0)), input.feeRefundable,
          input.destination.Some? || input.toPlatform, None)
  }

  /** A forwarded settlement: reserved, without a fee, to a connected account. */
  const FORWARDED := Terms(true, 0, true, true, None)

  function ReleaseFound(transfer: Transfer, patch: TransferMeta): Release {
    var merged := transfer.meta.Merge(patch);
    Release(Outstanding(transfer), merged.IsReserved(), merged.RefundableFee())
  }

  /** One entry per transfer, in the order they were made. */
  function NoteStep(c: Config, s: State, terms: seq<Terms>, op: Op): seq<Terms> {
    var r := Try(c, s, op);
    if r.Err? then terms else
    match op
    case CreateTransfer(input) => terms + [TermsOf(input)]
    case TransitionPayment(_, _, _, _) => if |r.value.transfers| > |s.transfers| then terms + [FORWARDED] else terms
    case TransitionTransfer(t, to, patch) =>
      if Releases(to) && t < |terms| && t < |s.transfers|
      then terms[t := terms[t].(release := Some(ReleaseFound(s.transfers[t], patch)))]
      else terms
    case _ => terms
  }

  /** The entries after a run. */
  function Notes(c: Config, s: State, terms: seq<Terms>, ops: seq<Op>): seq<Terms>
    decreases ops
  {
    if ops == [] then terms else Notes(c, Step(c, s, ops[0]), NoteStep(c, s, terms, ops[0]), ops[1..])
  }

  /* ---------------------------- what is always true of a transfer ---------------------------- */

  /** The row, its ledger rows and its terms fit together, whatever was written into its metadata. */
  predicate Booked(transfer: Transfer, tally: Tally, terms: Terms) {
    && transfer.amount > 0 && 0 <= transfer.amountReversed <= transfer.amount && terms.fee >= 0
    && (transfer.destination.None? ==> transfer.amountReversed == 0)
    && (transfer.amountReversed == transfer.amount ==> transfer.status == Reversed)
    && (transfer.destination.Some? ==> terms.arrives)
    && tally.debited == (if terms.reserved then transfer.amount + terms.fee else 0)
    && tally.arrived == (if terms.reserved && terms.arrives then transfer.amount else 0)
    && tally.back == tally.out == transfer.amountReversed
    && ReleaseBooked(transfer, tally, terms)
  }

  /** At most one release, of what was still out, and only into a status that ends the transfer. */
  predicate ReleaseBooked(transfer: Transfer, tally: Tally, terms: Terms) {
    && tally.released == terms.Paid() && tally.releases == (if terms.Paid() > 0 then 1 else 0)
    && tally.takenBack == (if terms.Paid() > 0 && transfer.destination.Some? then terms.release.value.outstanding else 0)
    && match terms.release
       case None => true
       case Some(release) =>
         && Releases(transfer.status) && release.fee >= 0
         && 0 < release.outstanding <= transfer.amount <= release.outstanding + transfer.amountReversed
         && (transfer.destination.None? ==> release.outstanding == transfer.amount)
  }

  /** Ledger rows that name a transfer name one that exists. */
  predicate RowsKnown(s: State) {
    forall r <- s.ledger :: IsTransferRow(r) && r.resource.Some? && r.resource.value.TransferId? ==>
      r.resource.value.n < |s.transfers|
  }

  ghost predicate AllBooked(s: State, terms: seq<Terms>) {
    && RowsKnown(s) && |terms| == |s.transfers|
    && (forall t :: 0 <= t < |s.transfers| ==> Booked(s.transfers[t], TallyOf(s.ledger, t), terms[t]))
  }

  /* ---------------------------- tallies of the rows a step adds ---------------------------- */

  lemma TallyPost(rows: seq<Row>, more: seq<Row>, t: nat)
    ensures TallyOf(rows + more, t) == TallyOf(rows, t).Plus(TallyOf(more, t))
  {
    hide Sum, InPart, ReleasedBy;
    forall part ensures Sum(rows + more, InPart(t, part)) == Sum(rows, InPart(t, part)) + Sum(more, InPart(t, part)) {
      SumPost(rows, more, InPart(t, part));
    }
    SumPost(rows, more, ReleasedBy(t));
  }

  /** One row of the transfer counts in one part. */
  function Weigh(t: nat, r: Row): Tally {
    Tally(InPart(t, Debited)(r), InPart(t, Arrived)(r), InPart(t, Back)(r), InPart(t, Out)(r),
          InPart(t, Released)(r), InPart(t, TakenBack)(r), ReleasedBy(t)(r))
  }

  lemma TallyPair(a: Row, b: Row, t: nat)
    ensures TallyOf([a], t) == Weigh(t, a) && TallyOf([a, b], t) == Weigh(t, a).Plus(Weigh(t, b))
  {
    hide Sum, InPart, ReleasedBy;
    forall part
      ensures Sum([a], InPart(t, part)) == InPart(t, part)(a)
      ensures Sum([a, b], InPart(t, part)) == InPart(t, part)(a) + InPart(t, part)(b)
    {
      SumPair(a, b, InPart(t, part));
    }
    SumPair(a, b, ReleasedBy(t));
  }

  function MovedBy(t: nat): Row -> int { (r: Row) => if IsRowOf(t, r) then r.Signed() else 0 }

  lemma OneRowMoves(r: Row, t: nat)
    ensures Weigh(t, r).Moved() == MovedBy(t)(r)
  {
  }

  lemma PlusMoves(tally: Tally, more: Tally)
    ensures tally.Plus(more).Moved() == tally.Moved() + more.Moved()
  {
  }

  /** The tally's net effect is what the transfer's rows add up to. */
  lemma {:induction false} TallyMoves(rows: seq<Row>, t: nat)
    ensures TallyOf(rows, t).Moved() == Sum(rows, MovedBy(t))
  {
    hide TallyOf, Tally.Plus, Weigh, MovedBy, IsRowOf;
    if rows == [] {
      NoRowsOf(rows, t);
    } else {
      var before, last := rows[..|rows| - 1], rows[|rows| - 1];
      TallyMoves(before, t);
      assert rows == before + [last];
      TallyPost(before, [last], t);
      TallyPair(last, last, t);
      hide Tally.Moved;
      PlusMoves(TallyOf(before, t), Weigh(t, last));
      OneRowMoves(last, t);
    }
  }

  lemma NoRowsOf(rows: seq<Row>, t: nat)
    requires forall r <- rows :: !IsRowOf(t, r)
    ensures TallyOf(rows, t) == BLANK
  {
    forall part ensures Sum(rows, InPart(t, part)) == 0 { SumsToNothing(rows, InPart(t, part)); }
    SumsToNothing(rows, ReleasedBy(t));
  }

  lemma {:induction false} SumsToNothing(rows: seq<Row>, weight: Row -> int)
    requires forall r <- rows :: weight(r) == 0
    ensures Sum(rows, weight) == 0
  {
    if rows != [] { SumsToNothing(rows[..|rows| - 1], weight); }
  }

  lemma WeighReserve(n: nat, transfer: Transfer, fee: int, toPlatform: bool)
    ensures var rows := ReserveRows(n, transfer, fee, toPlatform);
            && Weigh(n, rows[0]) == Tally(transfer.amount + fee, 0, 0, 0, 0, 0, 0)
            && (|rows| == 2 ==> Weigh(n, rows[1]) == Tally(0, transfer.amount, 0, 0, 0, 0, 0))
  {
  }

  lemma ReserveTally(n: nat, transfer: Transfer, fee: int, toPlatform: bool)
    ensures TallyOf(ReserveRows(n, transfer, fee, toPlatform), n) ==
            Tally(transfer.amount + fee, if transfer.destination.Some? || toPlatform then transfer.amount else 0,
                  0, 0, 0, 0, 0)
  {
    var rows := ReserveRows(n, transfer, fee, toPlatform);
    WeighReserve(n, transfer, fee, toPlatform);
    hide TallyOf, Weigh;
    TallyPair(rows[0], if |rows| == 2 then rows[1] else rows[0], n);
  }

  lemma WeighRelease(n: nat, transfer: Transfer, to: TransferStatus)
    ensures var rows := ReleaseRows(n, transfer, to);
            && (|rows| > 0 ==>
                  Weigh(n, rows[0]) == Tally(0, 0, 0, 0, Outstanding(transfer) + transfer.meta.RefundableFee(), 0, 1))
            && (|rows| > 1 ==> Weigh(n, rows[1]) == Tally(0, 0, 0, 0, 0, Outstanding(transfer), 0))
  {
  }

  lemma ReleaseTally(n: nat, transfer: Transfer, to: TransferStatus)
    ensures TallyOf(ReleaseRows(n, transfer, to), n) ==
            if ReleaseRows(n, transfer, to) == [] then BLANK
            else Tally(0, 0, 0, 0, Outstanding(transfer) + transfer.meta.RefundableFee(),
                       if transfer.destination.Some? then Outstanding(transfer) else 0, 1)
  {
    var rows := ReleaseRows(n, transfer, to);
    WeighRelease(n, transfer, to);
    hide TallyOf, Weigh;
    if rows == [] { NoRowsOf(rows, n); } else { TallyPair(rows[0], if |rows| == 2 then rows[1] else rows[0], n); }
  }

  lemma WeighReversal(n: nat, book: Book, amount: int, from: Owner, to: Owner)
    ensures var rows := MoveRows(book, amount, from, to, TransferReversal, TransferId(n));
            && Weigh(n, rows[0]) == Tally(0, 0, 0, amount, 0, 0, 0)
            && Weigh(n, rows[1]) == Tally(0, 0, amount, 0, 0, 0, 0)
  {
  }

  lemma ReversalTally(n: nat, book: Book, amount: int, from: Owner, to: Owner)
    ensures TallyOf(MoveRows(book, amount, from, to, TransferReversal, TransferId(n)), n)
            == Tally(0, 0, amount, amount, 0, 0, 0)
  {
    var rows := MoveRows(book, amount, from, to, TransferReversal, TransferId(n));
    WeighReversal(n, book, amount, from, to);
    hide TallyOf, Weigh;
    TallyPair(rows[0], rows[1], n);
  }

  /* ---------------------------- what each step keeps ---------------------------- */

  /** A step that leaves the rows of every transfer alone, and adds ledger rows of transfer `t` only. */
  lemma OtherTallies(s: State, rows: seq<Row>, t: nat)
    requires forall r <- rows :: IsTransferRow(r) ==> r.resource == Some(TransferId(t))
    ensures forall q: nat :: q != t ==> TallyOf(s.ledger + rows, q) == TallyOf(s.ledger, q)
    ensures TallyOf(s.ledger + rows, t) == TallyOf(s.ledger, t).Plus(TallyOf(rows, t))
  {
    hide TallyOf;
    forall q: nat | q != t ensures TallyOf(s.ledger + rows, q) == TallyOf(s.ledger, q) {
      TallyPost(s.ledger, rows, q);
      NoRowsOf(rows, q);
    }
    TallyPost(s.ledger, rows, t);
  }

  lemma UnknownIsBlank(s: State, t: nat)
    requires RowsKnown(s) && t >= |s.transfers|
    ensures TallyOf(s.ledger, t) == BLANK
  {
    NoRowsOf(s.ledger, t);
  }

  /** A new row at the end of the table, with the ledger rows that go with it. */
  lemma InsertKeepsBooked(s: State, terms: seq<Terms>, transfer: Transfer, rows: seq<Row>, asked: Terms, after: State)
    requires AllBooked(s, terms) && after.transfers == s.transfers + [transfer] && after.ledger == s.ledger + rows
    requires forall r <- rows :: IsTransferRow(r) && r.resource == Some(TransferId(|s.transfers|))
    requires Booked(transfer, TallyOf(rows, |s.transfers|), asked)
    ensures AllBooked(after, terms + [asked])
  {
    hide Booked, TallyOf;
    OtherTallies(s, rows, |s.transfers|);
    UnknownIsBlank(s, |s.transfers|);
  }

  lemma InsertReservedKeepsBooked(s: State, terms: seq<Terms>, transfer: Transfer, fee: int, toPlatform: bool, asked: Terms)
    requires AllBooked(s, terms) && InsertReserved(s, transfer, fee, toPlatform).Ok?
    requires transfer.amount > 0 && transfer.amountReversed == 0 && fee >= 0
    requires asked.reserved && asked.fee == fee && asked.release.None?
    requires asked.arrives == (transfer.destination.Some? || toPlatform)
    ensures AllBooked(InsertReserved(s, transfer, fee, toPlatform).value, terms + [asked])
  {
    var n := |s.transfers|;
    ReserveTally(n, transfer, fee, toPlatform);
    InsertKeepsBooked(s, terms, transfer, ReserveRows(n, transfer, fee, toPlatform), asked,
                      InsertReserved(s, transfer, fee, toPlatform).value);
  }

  lemma CreateTransferKeepsBooked(c: Config, s: State, terms: seq<Terms>, input: TransferInput)
    requires AllBooked(s, terms) && CreateTransferStep(c, s, input).Ok?
    ensures AllBooked(CreateTransferStep(c, s, input).value, terms + [TermsOf(input)])
  {
    if input.reserve {
      InsertReservedKeepsBooked(s, terms, NewTransfer(input), Max0(Default(input.fee, 0)), input.toPlatform,
                                TermsOf(input));
    } else {
      assert s.ledger + [] == s.ledger;
      InsertKeepsBooked(s, terms, NewTransfer(input), [], TermsOf(input), CreateTransferStep(c, s, input).value);
    }
  }

  /** One row rewritten, with the ledger rows that go with it. */
  lemma UpdateKeepsBooked(s: State, terms: seq<Terms>, t: nat, transfer: Transfer, rows: seq<Row>, now: Terms, after: State)
    requires AllBooked(s, terms) && t < |s.transfers|
    requires after.transfers == s.transfers[t := transfer] && after.ledger == s.ledger + rows
    requires forall r <- rows :: IsTransferRow(r) ==> r.resource == Some(TransferId(t))
    requires Booked(transfer, TallyOf(s.ledger, t).Plus(TallyOf(rows, t)), now)
    ensures AllBooked(after, terms[t := now])
  {
    hide Booked, TallyOf;
    OtherTallies(s, rows, t);
  }

  /** The terms after an accepted transition of one transfer. */
  function TermsAfter(transfer: Transfer, terms: Terms, to: TransferStatus, patch: TransferMeta): Terms {
    if Releases(to) then terms.(release := Some(ReleaseFound(transfer, patch))) else terms
  }

  /** What a transition adds to the tally, in terms of what its release found. */
  function Added(transfer: Transfer, to: TransferStatus, found: Release): Tally {
    if Releases(to) && found.reserved && found.outstanding + found.fee > 0 then
      Tally(0, 0, 0, 0, found.outstanding + found.fee, if transfer.destination.Some? then found.outstanding else 0, 1)
    else BLANK
  }

  lemma TransitionAdds(t: nat, transfer: Transfer, to: TransferStatus, patch: TransferMeta)
    ensures TallyOf(ReleaseRows(t, transfer.(status := to, meta := transfer.meta.Merge(patch)), to), t)
            == Added(transfer, to, ReleaseFound(transfer, patch))
  {
    hide TallyOf;
    ReleaseTally(t, transfer.(status := to, meta := transfer.meta.Merge(patch)), to);
  }

  /** A transfer that releases has not released before, and something of it is still out. */
  lemma StillOpen(transfer: Transfer, tally: Tally, terms: Terms, to: TransferStatus)
    requires Booked(transfer, tally, terms) && TransferMoves(transfer.status, to)
    ensures terms.release.None? && transfer.amountReversed < transfer.amount
  {
  }

  lemma ReleaseIsBooked(before: Transfer, after: Transfer, tally: Tally, terms: Terms, found: Release)
    requires Booked(before, tally, terms) && terms.release.None? && before.amountReversed < before.amount
    requires after == before.(status := after.status, meta := after.meta) && Releases(after.status)
    requires found.outstanding == before.amount - before.amountReversed && found.fee >= 0
    ensures Booked(after, tally.Plus(Added(before, after.status, found)), terms.(release := Some(found)))
  {
    hide Tally.Plus, Added, Booked, Releases;
    PlusAdded(before, tally, after.status, found);
    EndedBooks(before, after, tally, tally.Plus(Added(before, after.status, found)), terms,
               terms.(release := Some(found)), found);
  }

  lemma EndedBooks(before: Transfer, after: Transfer, tally: Tally, now: Tally, terms: Terms, ended: Terms, found: Release)
    requires Booked(before, tally, terms) && terms.release.None? && found.fee >= 0
    requires before.amount == after.amount && before.amountReversed == after.amountReversed
    requires before.destination == after.destination && Releases(after.status)
    requires 0 < found.outstanding == before.amount - before.amountReversed
    requires ended == Terms(terms.reserved, terms.fee, terms.refundable, terms.arrives, Some(found))
    requires now.debited == tally.debited && now.arrived == tally.arrived && now.back == tally.back && now.out == tally.out
    requires now.released == tally.released + (if found.reserved then found.outstanding + found.fee else 0)
    requires now.releases == tally.releases + (if found.reserved then 1 else 0)
    requires now.takenBack ==
             tally.takenBack + (if found.reserved && after.destination.Some? then found.outstanding else 0)
    ensures Booked(after, now, ended)
  {
  }

  lemma PlusAdded(transfer: Transfer, tally: Tally, to: TransferStatus, found: Release)
    requires Releases(to) && found.outstanding > 0 && found.fee >= 0
    ensures var now := tally.Plus(Added(transfer, to, found));
            && now.debited == tally.debited && now.arrived == tally.arrived && now.back == tally.back && now.out == tally.out
            && now.released == tally.released + (if found.reserved then found.outstanding + found.fee else 0)
            && now.releases == tally.releases + (if found.reserved then 1 else 0)
            && now.takenBack ==
               tally.takenBack + (if found.reserved && transfer.destination.Some? then found.outstanding else 0)
  {
  }

  lemma PlainMoveIsBooked(before: Transfer, after: Transfer, tally: Tally, terms: Terms)
    requires Booked(before, tally, terms) && terms.release.None? && before.amountReversed < before.amount
    requires after == before.(status := after.status, meta := after.meta)
    ensures Booked(after, tally.Plus(BLANK), terms)
  {
    PlusBlank(tally);
    hide Tally.Plus;
  }

  lemma PlusBlank(tally: Tally)
    ensures tally.Plus(BLANK) == tally
  {
  }

  lemma TransitionBooked(transfer: Transfer, tally: Tally, terms: Terms, to: TransferStatus, patch: TransferMeta)
    requires Booked(transfer, tally, terms) && TransferMoves(transfer.status, to)
    ensures Booked(transfer.(status := to, meta := transfer.meta.Merge(patch)),
                   tally.Plus(Added(transfer, to, ReleaseFound(transfer, patch))), TermsAfter(transfer, terms, to, patch))
  {
    hide Booked, TransferMeta.Merge;
    var after := transfer.(status := to, meta := transfer.meta.Merge(patch));
    StillOpen(transfer, tally, terms, to);
    if Releases(to) {
      ReleaseIsBooked(transfer, after, tally, terms, ReleaseFound(transfer, patch));
    } else {
      PlainMoveIsBooked(transfer, after, tally, terms);
    }
  }

  lemma TransitionKeepsBooked(s: State, terms: seq<Terms>, t: nat, to: TransferStatus, patch: TransferMeta)
    requires AllBooked(s, terms) && TransitionTransferStep(s, t, to, patch).Ok?
    ensures AllBooked(TransitionTransferStep(s, t, to, patch).value,
                      terms[t := TermsAfter(s.transfers[t], terms[t], to, patch)])
  {
    hide TallyOf, Booked, TermsAfter, TransferMeta.Merge;
    var transfer := s.transfers[t];
    var updated := transfer.(status := to, meta := transfer.meta.Merge(patch));
    TransitionAdds(t, transfer, to, patch);
    TransitionBooked(transfer, TallyOf(s.ledger, t), terms[t], to, patch);
    hide Added, ReleaseFound;
    UpdateKeepsBooked(s, terms, t, updated, ReleaseRows(t, updated, to), TermsAfter(transfer, terms[t], to, patch),
                      TransitionTransferStep(s, t, to, patch).value);
  }

  lemma ReverseKeepsBooked(c: Config, s: State, terms: seq<Terms>, t: nat, amount: Option<int>)
    requires AllBooked(s, terms) && ReverseTransferStep(c, s, t, amount).Ok?
    ensures AllBooked(ReverseTransferStep(c, s, t, amount).value, terms)
  {
    hide TallyOf;
    var transfer := s.transfers[t];
    var requested := Default(amount, transfer.amount - transfer.amountReversed);
    var rows := MoveRows(transfer.book, requested, transfer.destination, transfer.source,
                         TransferReversal, TransferId(t));
    assert Booked(transfer, TallyOf(s.ledger, t), terms[t]);
    ReversalTally(t, transfer.book, requested, transfer.destination, transfer.source);
    assert terms[t := terms[t]] == terms;
    UpdateKeepsBooked(s, terms, t, AfterReversal(transfer, requested), rows, terms[t],
                      ReverseTransferStep(c, s, t, amount).value);
  }

  lemma MetadataKeepsBooked(s: State, terms: seq<Terms>, t: nat, patch: TransferMeta)
    requires AllBooked(s, terms) && UpdateTransferMetadataStep(s, t, patch).Ok?
    ensures AllBooked(UpdateTransferMetadataStep(s, t, patch).value, terms)
  {
    hide TallyOf, TransferMeta.Merge;
    forall q | 0 <= q < |s.transfers|
      ensures Booked(UpdateTransferMetadataStep(s, t, patch).value.transfers[q], TallyOf(s.ledger, q), terms[q])
    {
      assert Booked(s.transfers[q], TallyOf(s.ledger, q), terms[q]);
    }
  }

  /** A step that touches no transfer and writes no transfer row. */
  ghost predicate TransfersUntouched(s: State, after: State) {
    && after.transfers == s.transfers
    && |s.ledger| <= |after.ledger| && after.ledger[..|s.ledger|] == s.ledger
    && (forall k :: |s.ledger| <= k < |after.ledger| ==> !IsTransferRow(after.ledger[k]))
  }

  lemma UntouchedKeepsBooked(s: State, after: State, terms: seq<Terms>)
    requires AllBooked(s, terms) && TransfersUntouched(s, after)
    ensures AllBooked(after, terms)
  {
    hide Booked;
    var rows := after.ledger[|s.ledger|..];
    assert after.ledger == s.ledger + rows;
    forall t | 0 <= t < |s.transfers| ensures TallyOf(after.ledger, t) == TallyOf(s.ledger, t) {
      TallyPost(s.ledger, rows, t);
      NoRowsOf(rows, t);
    }
  }

  lemma TransitionPaymentKeepsBooked(s: State, terms: seq<Terms>, i: nat, to: PaymentStatus, reversal: bool, retry: bool)
    requires AllBooked(s, terms) && TransitionPaymentStep(s, i, to, reversal, retry).Ok?
    ensures var after := TransitionPaymentStep(s, i, to, reversal, retry).value;
            AllBooked(after, if |after.transfers| > |s.transfers| then terms + [FORWARDED] else terms)
  {
    hide AllBooked;
    var p := s.payments[i];
    var moved := s.UpdatePayment(i, p.(status := to));
    UntouchedKeepsBooked(s, moved, terms);
    if to == PaymentStatus.Successful {
      var charged := moved.Post(ChargeRows(i, p));
      UntouchedKeepsBooked(moved, charged, terms);
      if IsForwarded(p) && ForwardedShare(p) > 0 {
        InsertReservedKeepsBooked(charged, terms, ForwardingTransfer(i, p), 0, false, FORWARDED);
      }
    }
  }

  lemma RefundStepLeavesTransfers(s: State, op: Op)
    requires op.CreateRefund? || op.TransitionRefund?
    requires Try(Config(false, 0), s, op).Ok?
    ensures TransfersUntouched(s, Try(Config(false, 0), s, op).value)
  {
  }

  lemma UntouchedTwice(s: State, middle: State, after: State)
    requires TransfersUntouched(s, middle) && TransfersUntouched(middle, after)
    ensures TransfersUntouched(s, after)
  {
    assert after.ledger[..|s.ledger|] == after.ledger[..|middle.ledger|][..|s.ledger|];
    forall k | |s.ledger| <= k < |after.ledger| ensures !IsTransferRow(after.ledger[k]) {
      if k < |middle.ledger| { assert after.ledger[..|middle.ledger|][k] == middle.ledger[k]; }
    }
  }

  lemma ResolveDisputeLeavesTransfers(s: State, d: nat, accepted: bool, requested: Option<int>)
    requires ResolveDisputeStep(s, d, accepted, requested).Ok?
    ensures TransfersUntouched(s, ResolveDisputeStep(s, d, accepted, requested).value)
  {
    hide CreateRefundStep, TransitionRefundStep, IsTransferRow;
    var i, amount := s.disputes[d].payment, Default(requested, s.disputes[d].refundAmount);
    if accepted && amount > 0 {
      var created := CreateRefundStep(s, i, Some(amount), RefundStatus.Pending).value;
      var settled := TransitionRefundStep(created, |s.refunds|, RefundStatus.Successful).value;
      RefundStepLeavesTransfers(s, CreateRefund(i, Some(amount), RefundStatus.Pending));
      RefundStepLeavesTransfers(created, TransitionRefund(|s.refunds|, RefundStatus.Successful));
      UntouchedTwice(s, created, settled);
      UntouchedTwice(s, settled, ResolveDisputeStep(s, d, accepted, requested).value);
    }
  }

  lemma OtherStepLeavesTransfers(c: Config, s: State, op: Op)
    requires op.CreatePayment? || op.RefundPlatformFee? || op.CreateDispute? || op.TransitionDispute?
             || op.CreditBalance? || op.DebitBalance? || op.ExchangeBalance?
    requires Try(c, s, op).Ok?
    ensures TransfersUntouched(s, Try(c, s, op).value)
  {
    hide TransitionPaymentStep, CreateRefundStep, TransitionRefundStep, ResolveDisputeStep, CreateTransferStep;
    hide TransitionTransferStep, ReverseTransferStep;
    hide FeeRefundShare;
  }

  /** The operations that may write a transfer or a ledger row of one. */
  predicate TouchesTransfers(op: Op) {
    op.TransitionPayment? || op.CreateTransfer? || op.TransitionTransfer? || op.ReverseTransfer?
    || op.UpdateTransferMetadata?
  }

  lemma LeavesTransfers(c: Config, s: State, op: Op)
    requires !TouchesTransfers(op) && Try(c, s, op).Ok?
    ensures TransfersUntouched(s, Try(c, s, op).value)
  {
    hide TransfersUntouched;
    match op
    case CreateRefund(_, _, _) => RefundStepLeavesTransfers(s, op);
    case TransitionRefund(_, _) => RefundStepLeavesTransfers(s, op);
    case ResolveDispute(d, accepted, requested) => ResolveDisputeLeavesTransfers(s, d, accepted, requested);
    case _ => OtherStepLeavesTransfers(c, s, op);
  }

  /** Every operation, with any metadata, keeps the books of every transfer. */
  lemma StepKeepsBooked(c: Config, s: State, terms: seq<Terms>, op: Op)
    requires AllBooked(s, terms)
    ensures AllBooked(Step(c, s, op), NoteStep(c, s, terms, op))
  {
    assert |terms| == |s.transfers|;
    hide AllBooked, TransfersUntouched, TransitionPaymentStep, CreateTransferStep, ReverseTransferStep;
    hide CreateRefundStep, TransitionRefundStep, ResolveDisputeStep, RefundPlatformFeeStep, ExchangeBalanceStep;
    hide ReleaseRows, Booked, TallyOf;
    if Try(c, s, op).Err? { return; }
    match op
    case TransitionPayment(i, to, reversal, retry) => TransitionPaymentKeepsBooked(s, terms, i, to, reversal, retry);
    case CreateTransfer(input) => CreateTransferKeepsBooked(c, s, terms, input);
    case TransitionTransfer(t, to, patch) => TransitionKeepsBooked(s, terms, t, to, patch);
    case ReverseTransfer(t, requested) => ReverseKeepsBooked(c, s, terms, t, requested);
    case UpdateTransferMetadata(t, patch) => MetadataKeepsBooked(s, terms, t, patch);
    case _ =>
      LeavesTransfers(c, s, op);
      UntouchedKeepsBooked(s, Try(c, s, op).value, terms);
  }

  lemma {:induction false} RunKeepsBooked(c: Config, s: State, terms: seq<Terms>, ops: seq<Op>)
    requires AllBooked(s, terms)
    ensures AllBooked(Run(c, s, ops), Notes(c, s, terms, ops))
    decreases ops
  {
    if ops != [] {
      StepKeepsBooked(c, s, terms, ops[0]);
      RunKeepsBooked(c, Step(c, s, ops[0]), NoteStep(c, s, terms, ops[0]), ops[1..]);
    }
  }

  lemma EmptyIsBooked()
    ensures AllBooked(EMPTY, [])
  {
  }

  /* ---------------------------- what a transfer keeps ---------------------------- */

  /** What creation took out of the balances for good: a payout to a bank, and the fee. */
  function TakenOut(transfer: Transfer, terms: Terms): int {
    if terms.reserved then (if terms.arrives then 0 else transfer.amount) + terms.fee else 0
  }

  /** What the release put back into the balances, of `paid`, when the other side is taken off again. */
  function PutBack(transfer: Transfer, terms: Terms, paid: int): int {
    if paid > 0 && transfer.destination.Some? && terms.release.Some? then paid - terms.release.value.outstanding
    else paid
  }

  /** What the transfer keeps out of the balances, by what its release paid. */
  function Kept(transfer: Transfer, terms: Terms): int {
    TakenOut(transfer, terms) - PutBack(transfer, terms, terms.Paid())
  }

  /** What it was to keep, by the terms of creation. */
  function Promised(transfer: Transfer, terms: Terms): int {
    TakenOut(transfer, terms) - PutBack(transfer, terms, terms.Owed())
  }

  lemma MovesWhatItKeeps(transfer: Transfer, tally: Tally, terms: Terms)
    requires Booked(transfer, tally, terms)
    ensures tally.Moved() == -Kept(transfer, terms) && tally.releases <= 1
  {
  }

  /** A transfer moves exactly what it keeps, and releases at most once, whatever else the run does. */
  lemma TransfersBalance(c: Config, ops: seq<Op>, t: nat)
    requires t < |Run(c, EMPTY, ops).transfers|
    ensures t < |Notes(c, EMPTY, [], ops)|
    ensures var s, asked := Run(c, EMPTY, ops), Notes(c, EMPTY, [], ops)[t];
            var transfer, tally := s.transfers[t], TallyOf(s.ledger, t);
            && Booked(transfer, tally, asked)
            && tally.Moved() == -Kept(transfer, asked) && tally.releases <= 1
  {
    EmptyIsBooked();
    RunKeepsBooked(c, EMPTY, [], ops);
    var s, terms := Run(c, EMPTY, ops), Notes(c, EMPTY, [], ops);
    hide TallyOf, Kept;
    MovesWhatItKeeps(s.transfers[t], TallyOf(s.ledger, t), terms[t]);
  }

  /** Between balances only the fee may leave, and the refundable part of it comes back on a release. */
  lemma KeepsItsPromiseExactlyWhen(transfer: Transfer, tally: Tally, asked: Terms)
    requires Booked(transfer, tally, asked)
    ensures Kept(transfer, asked) == Promised(transfer, asked) <==>
            if transfer.destination.None? then asked.Agreed()
            else asked.release.Some? ==>
                   (if asked.release.value.reserved then asked.release.value.fee else 0) == asked.RefundableFee()
    ensures transfer.destination.Some? ==>
              Promised(transfer, asked) ==
              (if asked.reserved then asked.fee else 0) - (if asked.release.Some? then asked.RefundableFee() else 0)
  {
  }

  /* ---------------------------- how much comes back ---------------------------- */

  /** What a release should leave returned, by the terms of creation. */
  function DueBack(transfer: Transfer, asked: Terms): int {
    if asked.reserved then transfer.amount + asked.RefundableFee() else transfer.amountReversed
  }

  /** After a release, what has come back is what was due exactly when the release read what creation did. */
  lemma DueExactlyWhen(transfer: Transfer, tally: Tally, asked: Terms)
    requires Booked(transfer, tally, asked) && asked.release.Some?
    requires transfer.amountReversed + asked.release.value.outstanding == transfer.amount
    ensures tally.Returned() == DueBack(transfer, asked) <==> asked.Agreed()
  {
  }

  lemma ReleaseReturns(s: State, terms: seq<Terms>, t: nat, to: TransferStatus, patch: TransferMeta)
    requires AllBooked(s, terms) && Releases(to) && TransitionTransferStep(s, t, to, patch).Ok?
    ensures var transfer, tally := s.transfers[t], TallyOf(TransitionTransferStep(s, t, to, patch).value.ledger, t);
            var merged := transfer.meta.Merge(patch);
            && tally.debited == (if terms[t].reserved then transfer.amount + terms[t].fee else 0)
            && (tally.Returned() == DueBack(transfer, terms[t])
                <==> terms[t].AgreesWith(merged.IsReserved(), merged.RefundableFee()))
  {
    hide TallyOf, ReleaseRows;
    var transfer, after := s.transfers[t], TransitionTransferStep(s, t, to, patch).value;
    var now := TermsAfter(transfer, terms[t], to, patch);
    TransitionKeepsBooked(s, terms, t, to, patch);
    assert Booked(transfer, TallyOf(s.ledger, t), terms[t]);
    assert Booked(after.transfers[t], TallyOf(after.ledger, t), now);
    hide AllBooked, Booked;
    DueExactlyWhen(after.transfers[t], TallyOf(after.ledger, t), now);
  }

  /**
   * In every reachable state a release gives back the amount and the refundable part of what creation
   * debited exactly when the metadata it is about to read says what creation did.
   */
  lemma ReleasesWhatWasReserved(c: Config, ops: seq<Op>, t: nat, to: TransferStatus, patch: TransferMeta)
    requires Releases(to) && TransitionTransferStep(Run(c, EMPTY, ops), t, to, patch).Ok?
    ensures t < |Run(c, EMPTY, ops).transfers| && t < |Notes(c, EMPTY, [], ops)|
    ensures var s, asked := Run(c, EMPTY, ops), Notes(c, EMPTY, [], ops)[t];
            var transfer, tally := s.transfers[t], TallyOf(TransitionTransferStep(s, t, to, patch).value.ledger, t);
            var merged := transfer.meta.Merge(patch);
            && tally.debited == (if asked.reserved then transfer.amount + asked.fee else 0)
            && (tally.Returned() == DueBack(transfer, asked)
                <==> asked.AgreesWith(merged.IsReserved(), merged.RefundableFee()))
  {
    hide Booked, TallyOf, ReleaseRows;
    EmptyIsBooked();
    RunKeepsBooked(c, EMPTY, [], ops);
    ReleaseReturns(Run(c, EMPTY, ops), Notes(c, EMPTY, [], ops), t, to, patch);
  }

  /** A reversal, accepted after the reservation has been released. */
  predicate IsLateReversal(c: Config, s: State, terms: seq<Terms>, op: Op, t: nat) {
    op.ReverseTransfer? && op.transfer == t && t < |terms| && terms[t].release.Some? && Try(c, s, op).Ok?
  }

  predicate ReversedLate(c: Config, s: State, terms: seq<Terms>, ops: seq<Op>, t: nat)
    decreases ops
  {
    && ops != []
    && (|| IsLateReversal(c, s, terms, ops[0], t)
        || ReversedLate(c, Step(c, s, ops[0]), NoteStep(c, s, terms, ops[0]), ops[1..], t))
  }

  /** More has been reversed than the release left to reverse. */
  predicate Over(s: State, terms: seq<Terms>, t: nat) {
    && t < |s.transfers| && t < |terms| && terms[t].release.Some?
    && s.transfers[t].amountReversed + terms[t].release.value.outstanding > s.transfers[t].amount
  }

  lemma TransitionOver(c: Config, s: State, terms: seq<Terms>, op: Op, t: nat)
    requires AllBooked(s, terms) && t < |s.transfers| && Try(c, s, op).Ok? && op.TransitionTransfer?
    ensures Over(Step(c, s, op), NoteStep(c, s, terms, op), t) <==> Over(s, terms, t)
  {
    if op.transfer == t { StillOpen(s.transfers[t], TallyOf(s.ledger, t), terms[t], op.toTransfer); }
    hide TallyOf, ReleaseRows, AllBooked, Booked, TransferMoves, TransferMeta.Merge;
  }

  lemma ReversalOver(c: Config, s: State, terms: seq<Terms>, op: Op, t: nat)
    requires AllBooked(s, terms) && t < |s.transfers| && Try(c, s, op).Ok? && op.ReverseTransfer?
    ensures Over(Step(c, s, op), NoteStep(c, s, terms, op), t)
            <==> Over(s, terms, t) || IsLateReversal(c, s, terms, op, t)
  {
    assert Booked(s.transfers[t], TallyOf(s.ledger, t), terms[t]);
    hide TallyOf, MoveRows, Net, AllBooked;
  }

  lemma MetadataOver(c: Config, s: State, terms: seq<Terms>, op: Op, t: nat)
    requires t < |s.transfers| && Try(c, s, op).Ok? && op.UpdateTransferMetadata?
    ensures Over(Step(c, s, op), NoteStep(c, s, terms, op), t) <==> Over(s, terms, t)
  {
    hide TransferMeta.Merge;
  }

  lemma OtherStepOver(c: Config, s: State, terms: seq<Terms>, op: Op, t: nat)
    requires AllBooked(s, terms) && Try(c, s, op).Ok?
    requires !(op.TransitionTransfer? || op.ReverseTransfer? || op.UpdateTransferMetadata?)
    ensures Over(Step(c, s, op), NoteStep(c, s, terms, op), t) <==> Over(s, terms, t)
  {
    hide TallyOf, Booked;
    if !TouchesTransfers(op) {
      LeavesTransfers(c, s, op);
      hide Try;
    }
  }

  lemma {:induction false} RunOver(c: Config, s: State, terms: seq<Terms>, ops: seq<Op>, t: nat)
    requires AllBooked(s, terms)
    ensures Over(Run(c, s, ops), Notes(c, s, terms, ops), t)
            <==> Over(s, terms, t) || ReversedLate(c, s, terms, ops, t)
    decreases ops
  {
    if ops != [] {
      StepKeepsBooked(c, s, terms, ops[0]);
      StepOver(c, s, terms, ops[0], t);
      hide AllBooked, Over, IsLateReversal;
      RunOver(c, Step(c, s, ops[0]), NoteStep(c, s, terms, ops[0]), ops[1..], t);
    }
  }

  lemma StepOver(c: Config, s: State, terms: seq<Terms>, op: Op, t: nat)
    requires AllBooked(s, terms)
    ensures Over(Step(c, s, op), NoteStep(c, s, terms, op), t)
            <==> Over(s, terms, t) || IsLateReversal(c, s, terms, op, t)
  {
    if Try(c, s, op).Err? { return; }
    match op
    case TransitionTransfer(_, _, _) => if t < |s.transfers| { TransitionOver(c, s, terms, op, t); }
    case ReverseTransfer(_, _) => if t < |s.transfers| { ReversalOver(c, s, terms, op, t); }
    case UpdateTransferMetadata(_, _) => if t < |s.transfers| { MetadataOver(c, s, terms, op, t); }
    case _ => OtherStepOver(c, s, terms, op, t);
  }

  /**
   * What comes back never exceeds what creation debited, less a fee that is not refundable: exactly in
   * the runs that accept no reversal of the transfer after its release.
   */
  lemma NeverOverReturned(c: Config, ops: seq<Op>, t: nat)
    requires t < |Run(c, EMPTY, ops).transfers|
    ensures t < |Notes(c, EMPTY, [], ops)|
    ensures var s, asked := Run(c, EMPTY, ops), Notes(c, EMPTY, [], ops)[t];
            var transfer, returned := s.transfers[t], TallyOf(s.ledger, t).Returned();
            && transfer.amountReversed <= transfer.amount
            && (asked.reserved && asked.Agreed() ==>
                  (returned <= transfer.amount + asked.RefundableFee() <==> !ReversedLate(c, EMPTY, [], ops, t)))
            && (!asked.reserved && asked.Agreed() ==> returned == transfer.amountReversed)
  {
    EmptyIsBooked();
    RunKeepsBooked(c, EMPTY, [], ops);
    RunOver(c, EMPTY, [], ops, t);
    var s, terms := Run(c, EMPTY, ops), Notes(c, EMPTY, [], ops);
    assert Booked(s.transfers[t], TallyOf(s.ledger, t), terms[t]);
    hide TallyOf, Run, Notes, ReversedLate;
  }

  /** One reversal returns too much exactly when the reservation has been released already. */
  lemma OverReturnsExactlyAfterRelease(c: Config, s: State, terms: seq<Terms>, t: nat, amount: Option<int>)
    requires AllBooked(s, terms) && ReverseTransferStep(c, s, t, amount).Ok?
    requires terms[t].reserved && terms[t].Agreed()
    ensures var after := ReverseTransferStep(c, s, t, amount).value;
            TallyOf(after.ledger, t).Returned() <= s.transfers[t].amount + terms[t].RefundableFee()
            <==> terms[t].release.None?
    ensures terms[t].release.Some? ==> s.transfers[t].status == Reversed
  {
    ReverseKeepsBooked(c, s, terms, t, amount);
    var after := ReverseTransferStep(c, s, t, amount).value;
    assert Booked(s.transfers[t], TallyOf(s.ledger, t), terms[t]);
    assert Booked(after.transfers[t], TallyOf(after.ledger, t), terms[t]);
    hide TallyOf, MoveRows, Net;
  }

  /* ---------------------------- when the metadata agrees ---------------------------- */

  /** A releasing transition reads what creation wrote, or would have written. */
  predicate StepAgrees(c: Config, s: State, terms: seq<Terms>, op: Op) {
    op.TransitionTransfer? && Releases(op.toTransfer) && Try(c, s, op).Ok? && op.transfer < |terms| ==>
      var merged := s.transfers[op.transfer].meta.Merge(op.patch);
      terms[op.transfer].AgreesWith(merged.IsReserved(), merged.RefundableFee())
  }

  /** The keys agree whenever a transition releases. */
  predicate ReleasesAgree(c: Config, s: State, terms: seq<Terms>, ops: seq<Op>)
    decreases ops
  {
    ops != [] ==>
      && StepAgrees(c, s, terms, ops[0])
      && ReleasesAgree(c, Step(c, s, ops[0]), NoteStep(c, s, terms, ops[0]), ops[1..])
  }

  predicate AllAgreed(terms: seq<Terms>) { forall t :: 0 <= t < |terms| ==> terms[t].Agreed() }

  lemma ReleaseAgreesExactly(c: Config, s: State, terms: seq<Terms>, op: Op)
    requires AllBooked(s, terms) && op.TransitionTransfer? && Releases(op.toTransfer) && Try(c, s, op).Ok?
    ensures AllAgreed(NoteStep(c, s, terms, op)) <==> AllAgreed(terms) && StepAgrees(c, s, terms, op)
  {
    var t := op.transfer;
    StillOpen(s.transfers[t], TallyOf(s.ledger, t), terms[t], op.toTransfer);
    hide Booked, TallyOf, ReleaseRows, TransferMoves;
    OneReleaseAgreesExactly(terms, t, ReleaseFound(s.transfers[t], op.patch));
  }

  lemma OneReleaseAgreesExactly(terms: seq<Terms>, t: nat, found: Release)
    requires t < |terms| && terms[t].release.None?
    ensures AllAgreed(terms[t := terms[t].(release := Some(found))])
            <==> AllAgreed(terms) && terms[t].AgreesWith(found.reserved, found.fee)
  {
    var after := terms[t := terms[t].(release := Some(found))];
    assert after[t].Agreed() <==> terms[t].AgreesWith(found.reserved, found.fee);
    assert terms[t].Agreed() && forall q :: 0 <= q < |terms| && q != t ==> after[q] == terms[q];
  }

  lemma StepAgreesExactly(c: Config, s: State, terms: seq<Terms>, op: Op)
    requires AllBooked(s, terms)
    ensures AllAgreed(NoteStep(c, s, terms, op)) <==> AllAgreed(terms) && StepAgrees(c, s, terms, op)
  {
    hide AllBooked, AllAgreed, NoteStep;
    if op.TransitionTransfer? && Releases(op.toTransfer) && Try(c, s, op).Ok? {
      ReleaseAgreesExactly(c, s, terms, op);
    } else {
      AppendsAgreed(c, s, terms, op);
    }
  }

  lemma AppendsAgreed(c: Config, s: State, terms: seq<Terms>, op: Op)
    requires !(op.TransitionTransfer? && Releases(op.toTransfer) && Try(c, s, op).Ok?)
    ensures AllAgreed(NoteStep(c, s, terms, op)) <==> AllAgreed(terms)
  {
    hide Try;
    var after := NoteStep(c, s, terms, op);
    assert |terms| <= |after| <= |terms| + 1;
    assert forall q :: 0 <= q < |terms| ==> after[q] == terms[q];
    assert |after| > |terms| ==> after[|terms|].Agreed();
  }

  /** Every release paid by the terms of creation exactly in the runs where the keys agree. */
  lemma {:induction false} AgreedExactlyWhen(c: Config, s: State, terms: seq<Terms>, ops: seq<Op>)
    requires AllBooked(s, terms)
    ensures AllAgreed(Notes(c, s, terms, ops)) <==> AllAgreed(terms) && ReleasesAgree(c, s, terms, ops)
    decreases ops
  {
    if ops != [] {
      StepKeepsBooked(c, s, terms, ops[0]);
      StepAgreesExactly(c, s, terms, ops[0]);
      hide AllBooked, AllAgreed, StepAgrees;
      AgreedExactlyWhen(c, Step(c, s, ops[0]), NoteStep(c, s, terms, ops[0]), ops[1..]);
    }
  }

  /** Caller metadata that leaves the three keys the engine reads alone. */
  predicate CleanOp(op: Op) {
    match op
    case CreateTransfer(input) => input.meta == NO_META
    case TransitionTransfer(_, _, patch) => patch == NO_META
    case UpdateTransferMetadata(_, patch) => patch == NO_META
    case _ => true
  }

  /** The metadata of every transfer says what creation did. */
  ghost predicate MetaAgrees(s: State, terms: seq<Terms>) {
    forall t :: 0 <= t < |s.transfers| && t < |terms| ==>
      terms[t].AgreesWith(s.transfers[t].meta.IsReserved(), s.transfers[t].meta.RefundableFee())
  }

  lemma CleanTransferStepAgrees(c: Config, s: State, terms: seq<Terms>, op: Op)
    requires AllBooked(s, terms) && MetaAgrees(s, terms) && CleanOp(op) && Try(c, s, op).Ok?
    requires op.CreateTransfer? || op.TransitionTransfer? || op.UpdateTransferMetadata? || op.ReverseTransfer?
    ensures StepAgrees(c, s, terms, op) && MetaAgrees(Step(c, s, op), NoteStep(c, s, terms, op))
  {
    hide Booked, TallyOf, ReleaseRows, MoveRows, ReserveRows, Net;
    if op.TransitionTransfer? || op.UpdateTransferMetadata? {
      assert s.transfers[op.transfer].meta.Merge(NO_META) == s.transfers[op.transfer].meta;
    }
  }

  lemma CleanStepAgrees(c: Config, s: State, terms: seq<Terms>, op: Op)
    requires AllBooked(s, terms) && MetaAgrees(s, terms) && CleanOp(op)
    ensures StepAgrees(c, s, terms, op) && MetaAgrees(Step(c, s, op), NoteStep(c, s, terms, op))
  {
    hide Booked, TallyOf;
    if Try(c, s, op).Ok? {
      if !TouchesTransfers(op) {
        LeavesTransfers(c, s, op);
        hide Try;
      } else if !op.TransitionPayment? {
        hide AllBooked, MetaAgrees;
        CleanTransferStepAgrees(c, s, terms, op);
      }
    }
  }

  /** Callers who leave the engine's keys alone always get the terms they asked for. */
  lemma {:induction false} CleanRunsAgree(c: Config, s: State, terms: seq<Terms>, ops: seq<Op>)
    requires AllBooked(s, terms) && MetaAgrees(s, terms) && forall op <- ops :: CleanOp(op)
    ensures ReleasesAgree(c, s, terms, ops)
    decreases ops
  {
    if ops != [] {
      StepKeepsBooked(c, s, terms, ops[0]);
      CleanStepAgrees(c, s, terms, ops[0]);
      hide AllBooked, MetaAgrees, StepAgrees, CleanOp;
      CleanRunsAgree(c, Step(c, s, ops[0]), NoteStep(c, s, terms, ops[0]), ops[1..]);
    }
  }

  /* ---------------------------- runs in which the metadata does not agree ---------------------------- */

  function BankPayout(book: Book, fee: Option<int>, reserve: bool, meta: TransferMeta): TransferInput {
    TransferInput(book, 100, TransferStatus.Pending, fee, true, None, None, None, reserve, false, meta)
  }

  /** The tally of the first transfer after a payout, one more call, and a failure. */
  function FailedPayout(c: Config, input: TransferInput, between: Op): Tally {
    TallyOf(Run(c, EMPTY, [CreateTransfer(input), between, TransitionTransfer(0, TransferStatus.Failed, NO_META)]).ledger, 0)
  }

  lemma RunThree(c: Config, s: State, first: Op, second: Op, third: Op)
    ensures Run(c, s, [first, second, third]) == Step(c, Step(c, Step(c, s, first), second), third)
  {
    hide Step;
    assert [first, second, third][1..] == [second, third] && [second, third][1..] == [third] && [third][1..] == [];
    var middle := Step(c, Step(c, s, first), second);
    assert Run(c, middle, [third]) == Run(c, Step(c, middle, third), []);
  }

  /** Metadata updated before the failure: 150 comes back of the 100 that was debited. */
  lemma UpdatedThenReleased(c: Config, book: Book)
    requires !c.enforce
    ensures var tally := FailedPayout(c, BankPayout(book, None, true, NO_META),
                                      UpdateTransferMetadata(0, TransferMeta(Some(50), None, None)));
            tally.debited == 100 && tally.Returned() == 150
  {
    hide Run, TallyOf;
    ReleasedAtFailure(c, BankPayout(book, None, true, NO_META), TransferMeta(Some(50), None, None));
  }

  /** Keys the caller wrote at creation, which nothing overwrote: too much comes back, or nothing does. */
  lemma DirtyCreations(c: Config, book: Book)
    requires !c.enforce
    ensures var noop := UpdateTransferMetadata(0, NO_META);
            var charged := FailedPayout(c, BankPayout(book, None, true, TransferMeta(Some(50), None, None)), noop);
            var waived := FailedPayout(c, BankPayout(book, None, true, TransferMeta(None, None, Some(false))), noop);
            && charged.debited == waived.debited == 100
            && charged.Returned() == 150 && waived.Returned() == 0
  {
    hide Run, TallyOf;
    ReleasedAtFailure(c, BankPayout(book, None, true, TransferMeta(Some(50), None, None)), NO_META);
    ReleasedAtFailure(c, BankPayout(book, None, true, TransferMeta(None, None, Some(false))), NO_META);
  }

  /** What such a payout gets back, for any metadata. */
  lemma ReleasedAtFailure(c: Config, input: TransferInput, patch: TransferMeta)
    requires !c.enforce && input.amount > 0 && input.reserve && !input.toPlatform
    requires input.status == TransferStatus.Pending && input.source.None? && input.destination.None?
    ensures var tally := FailedPayout(c, input, UpdateTransferMetadata(0, patch));
            var read := CreationMeta(input).Merge(patch);
            && tally.debited == input.amount + Max0(Default(input.fee, 0))
            && tally.Returned() == if read.IsReserved() then input.amount + read.RefundableFee() else 0
  {
    var update, fail := UpdateTransferMetadata(0, patch), TransitionTransfer(0, TransferStatus.Failed, NO_META);
    PayoutMade(c, input);
    var made := Step(c, EMPTY, CreateTransfer(input));
    PayoutUpdated(c, made, input, patch);
    PayoutFailed(c, Step(c, made, update), input, CreationMeta(input).Merge(patch));
    hide Step, TallyOf, CreationMeta;
    RunThree(c, EMPTY, CreateTransfer(input), update, fail);
  }

  lemma PayoutMade(c: Config, input: TransferInput)
    requires input.amount > 0 && !c.enforce
    ensures var made := Step(c, EMPTY, CreateTransfer(input));
            made.transfers == [NewTransfer(input)] && AllBooked(made, [TermsOf(input)])
  {
    EmptyIsBooked();
    hide AllBooked, CreationMeta;
    assert EMPTY.transfers + [NewTransfer(input)] == [NewTransfer(input)] && [] + [TermsOf(input)] == [TermsOf(input)];
    assert Postable(ReserveRows(0, NewTransfer(input), Max0(Default(input.fee, 0)), input.toPlatform));
    assert CreateTransferStep(c, EMPTY, input).Ok?;
    CreateTransferKeepsBooked(c, EMPTY, [], input);
  }

  lemma PayoutUpdated(c: Config, s: State, input: TransferInput, patch: TransferMeta)
    requires s.transfers == [NewTransfer(input)] && AllBooked(s, [TermsOf(input)])
    ensures var updated := Step(c, s, UpdateTransferMetadata(0, patch));
            && updated.transfers == [NewTransfer(input).(meta := CreationMeta(input).Merge(patch))]
            && AllBooked(updated, [TermsOf(input)])
  {
    MetadataKeepsBooked(s, [TermsOf(input)], 0, patch);
    hide AllBooked, CreationMeta;
  }

  lemma PayoutFailed(c: Config, s: State, input: TransferInput, read: TransferMeta)
    requires input.amount > 0 && input.reserve && !input.toPlatform && input.destination.None?
    requires input.status == TransferStatus.Pending
    requires s.transfers == [NewTransfer(input).(meta := read)] && AllBooked(s, [TermsOf(input)])
    ensures var tally := TallyOf(Step(c, s, TransitionTransfer(0, TransferStatus.Failed, NO_META)).ledger, 0);
            && tally.debited == input.amount + Max0(Default(input.fee, 0))
            && tally.Returned() == if read.IsReserved() then input.amount + read.RefundableFee() else 0
  {
    hide TallyOf, CreationMeta;
    assert read.Merge(NO_META) == read;
    var updated := s.transfers[0].(status := TransferStatus.Failed);
    var rows := ReleaseRows(0, updated, TransferStatus.Failed);
    assert Booked(s.transfers[0], TallyOf(s.ledger, 0), TermsOf(input));
    TallyPost(s.ledger, rows, 0);
    ReleaseTally(0, updated, TransferStatus.Failed);
    assert Step(c, s, TransitionTransfer(0, TransferStatus.Failed, NO_META)).ledger == s.ledger + rows;
  }

  /** Created unreserved with a fee, funded by a plain debit, then marked reserved: the failure returns the fee too. */
  lemma FundedLaterThenFailed(c: Config, book: Book)
    ensures var input, about := BankPayout(book, Some(30), false, NO_META), Some(TransferId(0));
            var made := EMPTY.InsertTransfer(NewTransfer(input));
            var funded := made.Post([Row(Pot(book, None), false, 100, External("wise.transfer.funded"), about)]);
            var sent := TransitionTransferStep(funded, 0, TransferStatus.Processing, TransferMeta(None, None, Some(true)));
            && CreateTransferStep(c, EMPTY, input) == Ok(made)
            && BookEntryStep(made, false, Pot(book, None), 100, "wise.transfer.funded", about) == Ok(funded)
            && sent.Ok? && var failed := TransitionTransferStep(sent.value, 0, TransferStatus.Failed, NO_META);
            && failed.Ok? && BookTotal(failed.value.ledger, book) == 30
            && TallyOf(failed.value.ledger, 0).debited == 0 && TallyOf(failed.value.ledger, 0).Returned() == 130
  {
    hide TallyOf, BookTotal;
    var input, about := BankPayout(book, Some(30), false, NO_META), Some(TransferId(0));
    var made := EMPTY.InsertTransfer(NewTransfer(input));
    var debit := Row(Pot(book, None), false, 100, External("wise.transfer.funded"), about);
    var funded := made.Post([debit]);
    var meta := TransferMeta(Some(30), Some(true), Some(true));
    var sent := TransitionTransferStep(funded, 0, TransferStatus.Processing, TransferMeta(None, None, Some(true))).value;
    assert sent.transfers == [NewTransfer(input).(status := TransferStatus.Processing, meta := meta)];
    assert sent.ledger == [debit];
    FundedFailure(sent, book, debit, NewTransfer(input).(status := TransferStatus.Processing, meta := meta));
  }

  lemma FundedFailure(sent: State, book: Book, debit: Row, transfer: Transfer)
    requires sent.transfers == [transfer] && sent.ledger == [debit]
    requires debit == Row(Pot(book, None), false, 100, External("wise.transfer.funded"), Some(TransferId(0)))
    requires transfer.book == book && transfer.amount == 100 && transfer.amountReversed == 0
    requires transfer.status == TransferStatus.Processing && transfer.source.None? && transfer.destination.None?
    requires transfer.meta == TransferMeta(Some(30), Some(true), Some(true))
    ensures var failed := TransitionTransferStep(sent, 0, TransferStatus.Failed, NO_META);
            && failed.Ok? && BookTotal(failed.value.ledger, book) == 30
            && TallyOf(failed.value.ledger, 0).debited == 0 && TallyOf(failed.value.ledger, 0).Returned() == 130
  {
    assert transfer.meta.Merge(NO_META) == transfer.meta;
    var credit := Row(Pot(book, None), true, 130, TransferReleased(TransferStatus.Failed), Some(TransferId(0)));
    assert ReleaseRows(0, transfer.(status := TransferStatus.Failed), TransferStatus.Failed) == [credit];
    assert [debit] + [credit] == [debit, credit];
    hide Sum, TallyOf, BookTotal, ReleaseRows;
    FundedRows(book, debit, credit);
  }

  lemma FundedRows(book: Book, debit: Row, credit: Row)
    requires debit.pot.book == credit.pot.book == book && debit.Signed() == -100 && credit.Signed() == 130
    requires debit.reason.External? && credit.credit && credit.resource == Some(TransferId(0))
    requires credit.reason == TransferReleased(TransferStatus.Failed)
    ensures BookTotal([debit, credit], book) == 30
    ensures TallyOf([debit, credit], 0) == Tally(0, 0, 0, 0, 130, 0, 1)
  {
    hide Sum, TallyOf, Weigh;
    SumPair(debit, credit, InBook(book));
    TallyPair(debit, credit, 0);
    WeighFunded(debit, credit);
  }

  lemma WeighFunded(debit: Row, credit: Row)
    requires debit.reason.External?
    requires credit.credit && credit.reason == TransferReleased(TransferStatus.Failed)
    requires credit.resource == Some(TransferId(0))
    ensures Weigh(0, debit) == BLANK && Weigh(0, credit) == Tally(0, 0, 0, 0, credit.amount, 0, 1)
  {
  }

  /** A full reversal of a transfer already reversed by its status: the source gets the money twice. */
  lemma ReversedTwice(c: Config, s: State, book: Book)
    requires !c.enforce
    requires s.transfers == [Transfer(book, 100, TransferStatus.Successful, None, Some(7), None, false, 0, NO_META)]
    requires TallyOf(s.ledger, 0).Returned() == 0
    ensures TransitionTransferStep(s, 0, Reversed, NO_META).Ok?
    ensures var after := TransitionTransferStep(s, 0, Reversed, NO_META).value;
            && ReverseTransferStep(c, after, 0, None).Ok?
            && TallyOf(ReverseTransferStep(c, after, 0, None).value.ledger, 0).Returned() == 200
  {
    hide TallyOf;
    var updated := s.transfers[0].(status := Reversed);
    var after := TransitionTransferStep(s, 0, Reversed, NO_META).value;
    TallyPost(s.ledger, ReleaseRows(0, updated, Reversed), 0);
    ReleaseTally(0, updated, Reversed);
    TallyPost(after.ledger, MoveRows(book, 100, Some(7), None, TransferReversal, TransferId(0)), 0);
    ReversalTally(0, book, 100, Some(7), None);
  }
}
