/** Idempotent replay: the same key and the same request get the first response; the same key and another request, a conflict. */
module Idempotency {
  import opened Options
  import opened JsonText
  import opened JsonNumbers
  import opened CanonicalJson

  /** A request as the hooks see it. A request without a body has no JSON value at all. */
  datatype Request = Request(method_: Text, url: Text, body: Option<Json>, key: Option<Text>)

  const SPACE: Unit := 0x20
  const NEWLINE: Unit := 0x0a

  const GET: Text := [0x47, 0x45, 0x54]
  const HEAD: Text := [0x48, 0x45, 0x41, 0x44]

  /* ---------------------------- the pre-image ---------------------------- */

  predicate ValidBody(body: Option<Json>) { body.Some? ==> WellFormed(body.value) }

  /** A method has no space in it and a request target no line break. */
  predicate ValidRequest(r: Request) { ValidBody(r.body) && SPACE !in r.method_ && NEWLINE !in r.url }

  /** An absent body is stringified as null. */
  function BodyText(body: Option<Json>): Text
    requires ValidBody(body)
  {
    if body.Some? then Stable(body.value) else NULL_TEXT
  }

  /** What `hashRequest` digests. */
  function PreImage(r: Request): Text
    requires ValidBody(r.body)
  {
    r.method_ + ([SPACE] + (r.url + ([NEWLINE] + BodyText(r.body))))
  }

  function Read(body: Option<Json>): Json { if body.Some? then body.value else Null }

  ghost predicate SameRequest(a: Request, b: Request) {
    a.method_ == b.method_ && a.url == b.url && Same(Read(a.body), Read(b.body))
  }

  lemma BodyTextIsStable(body: Option<Json>)
    requires ValidBody(body)
    ensures WellFormed(Read(body)) && BodyText(body) == Stable(Read(body))
  {
  }

  lemma SeparatedAgree(a: Text, x: Text, b: Text, y: Text, mark: Unit)
    requires a + ([mark] + x) == b + ([mark] + y) && mark !in a && mark !in b
    ensures a == b && x == y
  {
    var s, t := a + ([mark] + x), b + ([mark] + y);
    assert s[|a|] == mark && forall i :: 0 <= i < |a| ==> s[i] == a[i] != mark;
    assert t[|b|] == mark && forall i :: 0 <= i < |b| ==> t[i] == b[i] != mark;
    assert |a| == |b|;
    SplitAgrees(a, [mark] + x, b, [mark] + y);
    Peel(mark, x, y);
  }

  /** Two requests have one pre-image exactly when they are the same request, up to the key order of their bodies. */
  lemma PreImageIsExact(a: Request, b: Request)
    requires ValidRequest(a) && ValidRequest(b)
    ensures PreImage(a) == PreImage(b) <==> SameRequest(a, b)
  {
    BodyTextIsStable(a.body);
    BodyTextIsStable(b.body);
    hide BodyText, Stable, Same, Read;
    StableIsExact(Read(a.body), Read(b.body));
    if PreImage(a) == PreImage(b) {
      var x, y := a.url + ([NEWLINE] + BodyText(a.body)), b.url + ([NEWLINE] + BodyText(b.body));
      SeparatedAgree(a.method_, x, b.method_, y, SPACE);
      SeparatedAgree(a.url, BodyText(a.body), b.url, BodyText(b.body), NEWLINE);
    }
  }

  /** The one thing it cannot tell apart: no body, and a body that is null. */
  lemma NoBodyReadsAsNull(r: Request)
    ensures PreImage(r.(body := None)) == PreImage(r.(body := Some(Null)))
  {
  }

  /* ---------------------------- the hooks ---------------------------- */

  /** What a handler answered; only a string payload can be kept. */
  datatype Response = Response(status: int, payload: Option<Text>)

  datatype Stored = Stored(preImage: Text, status: int, payload: Text)

  datatype Pending = Pending(key: Text, preImage: Text)

  /** The stored responses, and what each admitted request left for when its response is sent. */
  datatype Hooks = Hooks(store: map<Text, Stored>, waiting: seq<Option<Pending>>)

  datatype Verdict = Execute(slot: nat) | Replay(stored: Stored) | Conflict

  predicate Covered(r: Request) { r.method_ != GET && r.method_ != HEAD && r.key.Some? && r.key.value != [] }

  function Decide(h: Hooks, r: Request): Verdict
    requires ValidBody(r.body)
  {
    if !Covered(r) || r.key.value !in h.store then Execute(|h.waiting|)
    else if h.store[r.key.value].preImage != PreImage(r) then Conflict
    else Replay(h.store[r.key.value])
  }

  /** The `preHandler` hook. */
  function Arrive(h: Hooks, r: Request): Hooks
    requires ValidBody(r.body)
  {
    if !Decide(h, r).Execute? then h
    else h.(waiting := h.waiting + [if Covered(r) then Some(Pending(r.key.value, PreImage(r))) else None])
  }

  predicate Memoisable(response: Response) { response.status < 400 && response.payload.Some? }

  /** The request in the slot left its key for when its response is sent. */
  predicate LeftKey(h: Hooks, slot: nat, key: Text) {
    slot < |h.waiting| && h.waiting[slot].Some? && h.waiting[slot].value.key == key
  }

  /** The `onSend` hook: the table has one row a key, and an insert never replaces. */
  function Send(h: Hooks, slot: nat, response: Response): Hooks {
    if slot >= |h.waiting| || h.waiting[slot].None? || !Memoisable(response) then h else
    var pending := h.waiting[slot].value;
    if pending.key in h.store then h
    else h.(store := h.store[pending.key := Stored(pending.preImage, response.status, response.payload.value)])
  }

  /** What the client is sent: the handler's answer, or the error of an insert that found its key taken. */
  datatype Sent = AsAnswered(response: Response) | InsertFailed

  function Answer(h: Hooks, slot: nat, response: Response): Sent {
    if slot < |h.waiting| && h.waiting[slot].Some? && Memoisable(response) && h.waiting[slot].value.key in h.store
    then InsertFailed else AsAnswered(response)
  }

  datatype Step = Arrival(request: Request) | Sending(slot: nat, response: Response)

  predicate ValidStep(s: Step) { s.Arrival? ==> ValidRequest(s.request) }

  function Take(h: Hooks, step: Step): Hooks
    requires ValidStep(step)
  {
    match step
    case Arrival(r) => Arrive(h, r)
    case Sending(slot, response) => Send(h, slot, response)
  }

  function Follow(h: Hooks, steps: seq<Step>): Hooks
    requires forall s <- steps :: ValidStep(s)
  {
    if steps == [] then h else Take(Follow(h, steps[..|steps| - 1]), steps[|steps| - 1])
  }

  /** A stored response is never lost and never replaced, however requests overlap. */
  lemma {:induction false} StoredForGood(h: Hooks, steps: seq<Step>, key: Text)
    requires (forall s <- steps :: ValidStep(s)) && key in h.store
    ensures key in Follow(h, steps).store && Follow(h, steps).store[key] == h.store[key]
  {
    hide PreImage, ValidRequest;
    if steps != [] { StoredForGood(h, steps[..|steps| - 1], key); }
  }

  /** From the moment a first response is kept, its key answers the same request with it, byte for byte, and every
      other request with a conflict. */
  lemma ReplayIsExact(h: Hooks, slot: nat, first: Request, response: Response, steps: seq<Step>, later: Request)
    requires ValidRequest(first) && Covered(first) && ValidRequest(later) && Covered(later) && later.key == first.key
    requires slot < |h.waiting| && h.waiting[slot] == Some(Pending(first.key.value, PreImage(first)))
    requires first.key.value !in h.store && Memoisable(response)
    requires forall s <- steps :: ValidStep(s)
    ensures Decide(Follow(Send(h, slot, response), steps), later)
            == if SameRequest(first, later)
               then Replay(Stored(PreImage(first), response.status, response.payload.value)) else Conflict
  {
    StoredForGood(Send(h, slot, response), steps, first.key.value);
    PreImageIsExact(first, later);
    hide PreImage, SameRequest, Follow, ValidRequest;
  }

  /** A failed request keeps nothing, so its key may be used again. */
  lemma FailuresAreNotKept(h: Hooks, slot: nat, response: Response)
    requires response.status >= 400
    ensures Send(h, slot, response) == h
  {
  }

  /** A read, or a request without a key, is never looked up and leaves nothing; any other request is, and a first success
      with a text to send is kept under its key as it was answered, for good. */
  lemma OnlyKeyedWritesAreKept(h: Hooks, r: Request, response: Response)
    requires ValidRequest(r)
    ensures var n, arrived := |h.waiting|, Arrive(h, r);
            var sent := Send(arrived, n, response);
            if r.method_ == [0x47, 0x45, 0x54] || r.method_ == [0x48, 0x45, 0x41, 0x44] || r.key == None || r.key == Some([]) then
              Decide(h, r) == Execute(n) && sent == arrived && arrived.store == h.store
            else if r.key.value in h.store then arrived == h
            else
              && Decide(h, r) == Execute(n)
              && sent.store == if response.status <= 399 && response.payload.Some?
                               then h.store[r.key.value := Stored(PreImage(r), response.status, response.payload.value)]
                               else h.store
  {
    hide PreImage;
  }

  /** Some step of the run kept a response under the key. */
  predicate KeptDuring(h: Hooks, steps: seq<Step>, key: Text)
    requires forall s <- steps :: ValidStep(s)
  {
    && steps != []
    && (var before, last := Follow(h, steps[..|steps| - 1]), steps[|steps| - 1];
        || KeptDuring(h, steps[..|steps| - 1], key)
        || (last.Sending? && Memoisable(last.response) && LeftKey(before, last.slot, key)))
  }

  lemma {:induction false} StoredExactlyWhenKept(h: Hooks, steps: seq<Step>, key: Text)
    requires forall s <- steps :: ValidStep(s)
    ensures key in Follow(h, steps).store <==> key in h.store || KeptDuring(h, steps, key)
  {
    hide PreImage, ValidRequest;
    if steps != [] { StoredExactlyWhenKept(h, steps[..|steps| - 1], key); }
  }

  lemma {:induction false} SlotStays(h: Hooks, steps: seq<Step>, slot: nat)
    requires (forall s <- steps :: ValidStep(s)) && slot < |h.waiting|
    ensures slot < |Follow(h, steps).waiting| && Follow(h, steps).waiting[slot] == h.waiting[slot]
  {
    hide PreImage, ValidRequest;
    if steps != [] { SlotStays(h, steps[..|steps| - 1], slot); }
  }

  /** An admitted request that succeeds is answered with an error exactly when another response has been kept under
      its key since it was admitted: its handler has run all the same. */
  lemma FailsExactlyWhenOvertaken(h: Hooks, r: Request, steps: seq<Step>, response: Response)
    requires ValidRequest(r) && Covered(r) && r.key.value !in h.store && Memoisable(response)
    requires forall s <- steps :: ValidStep(s)
    ensures Decide(h, r) == Execute(|h.waiting|)
    ensures var end := Follow(Arrive(h, r), steps);
            Answer(end, |h.waiting|, response)
            == if KeptDuring(Arrive(h, r), steps, r.key.value) then InsertFailed else AsAnswered(response)
  {
    hide PreImage, Follow, KeptDuring;
    SlotStays(Arrive(h, r), steps, |h.waiting|);
    StoredExactlyWhenKept(Arrive(h, r), steps, r.key.value);
  }

  /** Two requests that overlap both run. One response is kept; the late one's client gets an error if it succeeded,
      and from then on the key replays the first to whoever sends that request again. */
  lemma OverlappingRequestsBothRun(h: Hooks, a: Request, b: Request, ra: Response, rb: Response)
    requires ValidRequest(a) && ValidRequest(b) && Covered(a) && Covered(b) && a.key == b.key && a.key.value !in h.store
    requires Memoisable(ra)
    ensures var both := Arrive(Arrive(h, a), b);
            var n, kept := |h.waiting|, Send(both, |h.waiting|, ra);
            && Decide(h, a) == Execute(n) && Decide(Arrive(h, a), b) == Execute(n + 1)
            && Answer(both, n, ra) == AsAnswered(ra)
            && Answer(kept, n + 1, rb) == (if Memoisable(rb) then InsertFailed else AsAnswered(rb))
            && Send(kept, n + 1, rb).store == h.store[a.key.value := Stored(PreImage(a), ra.status, ra.payload.value)]
            && Decide(Send(kept, n + 1, rb), b)
               == if SameRequest(a, b) then Replay(Stored(PreImage(a), ra.status, ra.payload.value)) else Conflict
  {
    PreImageIsExact(a, b);
    hide PreImage, SameRequest, ValidRequest;
  }

  /** The plugin, with the stored responses as its table. */
  class IdempotencyPlugin {
    var store: map<Text, Stored>
    var waiting: seq<Option<Pending>>

    constructor ()
      ensures State() == Hooks(map[], [])
    {
      store, waiting := map[], [];
    }

    function State(): Hooks
      reads this
    {
      Hooks(store, waiting)
    }

    method PreHandler(r: Request) returns (verdict: Verdict)
      requires ValidRequest(r)
      modifies this`waiting
      ensures verdict == Decide(old(State()), r) && State() == Arrive(old(State()), r)
    {
      verdict := Execute(|waiting|);
      if r.method_ == GET || r.method_ == HEAD || r.key.None? || r.key.value == [] {
        waiting := waiting + [None];
        return;
      }
      var preImage := PreImage(r);
      hide PreImage;
      if r.key.value !in store {
        waiting := waiting + [Some(Pending(r.key.value, preImage))];
        return;
      }
      var existing := store[r.key.value];
      verdict := if existing.preImage != preImage then Conflict else Replay(existing);
    }

    method OnSend(slot: nat, response: Response) returns (sent: Sent)
      modifies this`store
      ensures State() == Send(old(State()), slot, response)
      ensures sent == Answer(old(State()), slot, response)
    {
      sent := AsAnswered(response);
      if slot >= |waiting| || waiting[slot].None? { return; }
      if response.status >= 400 || response.payload.None? { return; }
      var pending := waiting[slot].value;
      var inserted := Put(pending.key, Stored(pending.preImage, response.status, response.payload.value));
      if !inserted { return InsertFailed; }
    }

    /** A plain insert under the key. */
    method Put(key: Text, row: Stored) returns (inserted: bool)
      modifies this`store
      ensures inserted <==> key !in old(store)
      ensures store == if inserted then old(store)[key := row] else old(store)
    {
      inserted := key !in store;
      if inserted { store := store[key := row]; }
    }
  }
}
