/** Draining a job queue on virtual time: the outcome does not depend on the order of the drain. */
module JobRuns {

  /** What a job asks for: its kind and payload. */
  datatype Work = Work(kind: string, payload: string)

  /** A queued job as its handler sees it, due at its own instant. */
  datatype Item = Item(work: Work, attempt: nat, maxAttempts: int, runAt: int)

  datatype Request = Request(work: Work, maxAttempts: int, runAt: int)

  /** How a handler ends: done, asking to be retried, throwing, or not registered at all. */
  datatype Ending = Complete | RetryIn(ms: int) | Throw | Unhandled

  datatype Reaction = Reaction(ending: Ending, followUps: seq<Request>)

  /** A handler that depends on nothing but the job and the instant it sees. */
  type Handler = (Item, int) -> Reaction

  function Pow2(n: nat): int { if n == 0 then 1 else 2 * Pow2(n - 1) }

  /** Exponential backoff with a cap, used when a handler throws. */
  function DefaultBackoffMs(attempt: nat): int {
    var raw := Pow2(attempt) * 1_000;
    if raw < 60_000 then raw else 60_000
  }

  function RetryDelay(x: Item, ending: Ending): int {
    var ms := if ending.RetryIn? then ending.ms else DefaultBackoffMs(x.attempt);
    if ms > 0 then ms else 0
  }

  predicate Retries(x: Item, ending: Ending) {
    (ending.RetryIn? || ending.Throw?) && x.attempt + 1 < x.maxAttempts
  }

  /** The next attempt of a job that is to be retried. */
  function NextAttempt(x: Item, ending: Ending): Item {
    x.(attempt := x.attempt + 1, runAt := x.runAt + RetryDelay(x, ending))
  }

  function Fresh(r: Request): Item { Item(r.work, 0, r.maxAttempts, r.runAt) }

  function FreshAll(requests: seq<Request>): multiset<Item> {
    if requests == [] then multiset{}
    else FreshAll(requests[..|requests| - 1]) + multiset{Fresh(requests[|requests| - 1])}
  }

  /** Everything that running a job puts into the queue. */
  function Successors(h: Handler, x: Item): multiset<Item> {
    var reaction := h(x, x.runAt);
    (if reaction.ending.Unhandled? then multiset{} else FreshAll(reaction.followUps))
    + (if Retries(x, reaction.ending) then multiset{NextAttempt(x, reaction.ending)} else multiset{})
  }

  /** The queue after one of its jobs has run. */
  function Exec(h: Handler, queue: multiset<Item>, x: Item): multiset<Item> {
    queue - multiset{x} + Successors(h, x)
  }

  function After(h: Handler, queue: multiset<Item>, xs: seq<Item>): multiset<Item>
    decreases xs
  {
    if xs == [] then queue else After(h, Exec(h, queue, xs[0]), xs[1..])
  }

  /** Every job run was in the queue and due by `limit`. */
  predicate Legal(h: Handler, queue: multiset<Item>, xs: seq<Item>, limit: int)
    decreases xs
  {
    xs != [] ==>
      && xs[0] in queue && xs[0].runAt <= limit
      && Legal(h, Exec(h, queue, xs[0]), xs[1..], limit)
  }

  /** Nothing is left to run at `limit`. */
  predicate Quiet(queue: multiset<Item>, limit: int) { forall x <- queue :: x.runAt > limit }

  lemma {:induction false} RunsConcatenate(h: Handler, queue: multiset<Item>, xs: seq<Item>, ys: seq<Item>, limit: int)
    ensures After(h, queue, xs + ys) == After(h, After(h, queue, xs), ys)
    ensures Legal(h, queue, xs, limit) && Legal(h, After(h, queue, xs), ys, limit) ==> Legal(h, queue, xs + ys, limit)
    decreases xs
  {
    if xs == [] {
      assert xs + ys == ys;
    } else {
      assert (xs + ys)[0] == xs[0] && (xs + ys)[1..] == xs[1..] + ys;
      RunsConcatenate(h, Exec(h, queue, xs[0]), xs[1..], ys, limit);
    }
  }

  lemma {:induction false} LaterIsLegalToo(h: Handler, queue: multiset<Item>, xs: seq<Item>, early: int, late: int)
    requires early <= late && Legal(h, queue, xs, early)
    ensures Legal(h, queue, xs, late)
    decreases xs
  {
    if xs != [] { LaterIsLegalToo(h, Exec(h, queue, xs[0]), xs[1..], early, late); }
  }

  lemma ReplacementsCommute<T>(queue: multiset<T>, x: T, y: T, sx: multiset<T>, sy: multiset<T>)
    requires x in queue && y in queue && x != y
    ensures queue - multiset{x} + sx - multiset{y} + sy == queue - multiset{y} + sy - multiset{x} + sx
  {
    var left := queue - multiset{x} + sx - multiset{y} + sy;
    var right := queue - multiset{y} + sy - multiset{x} + sx;
    forall z: T ensures left[z] == right[z] {}
  }

  /** Two jobs of the queue can run in either order. */
  lemma ExecCommutes(h: Handler, queue: multiset<Item>, x: Item, y: Item)
    requires x in queue && y in queue && x != y
    ensures Exec(h, Exec(h, queue, x), y) == Exec(h, Exec(h, queue, y), x)
  {
    hide Successors;
    ReplacementsCommute(queue, x, y, Successors(h, x), Successors(h, y));
  }

  lemma StaysQueued(h: Handler, queue: multiset<Item>, x: Item, y: Item)
    requires y in queue && x != y
    ensures y in Exec(h, queue, x)
  {
    hide Successors;
  }

  /** A due job is run in every run that ends quiet, and might as well have been run first. */
  lemma {:induction false} Hoist(h: Handler, queue: multiset<Item>, xs: seq<Item>, y: Item, limit: int)
    returns (rest: seq<Item>)
    requires Legal(h, queue, xs, limit) && Quiet(After(h, queue, xs), limit)
    requires y in queue && y.runAt <= limit
    ensures Legal(h, Exec(h, queue, y), rest, limit)
    ensures After(h, Exec(h, queue, y), rest) == After(h, queue, xs)
    ensures multiset(xs) == multiset{y} + multiset(rest)
    decreases xs
  {
    hide Exec, Successors;
    assert xs != [];
    var x := xs[0];
    HeadCounts(xs);
    if x == y {
      rest := xs[1..];
    } else {
      StaysQueued(h, queue, x, y);
      StaysQueued(h, queue, y, x);
      ExecCommutes(h, queue, x, y);
      var rest' := Hoist(h, Exec(h, queue, x), xs[1..], y, limit);
      rest := [x] + rest';
      assert rest[1..] == rest';
      HeadCounts(rest);
    }
  }

  /** Drain confluence: whatever the order, the same jobs run at the same instants. */
  lemma {:induction false} DrainsAgree(h: Handler, queue: multiset<Item>, xs: seq<Item>, ys: seq<Item>, limit: int)
    requires Legal(h, queue, xs, limit) && Quiet(After(h, queue, xs), limit)
    requires Legal(h, queue, ys, limit) && Quiet(After(h, queue, ys), limit)
    ensures multiset(xs) == multiset(ys)
    ensures After(h, queue, xs) == After(h, queue, ys)
    decreases ys
  {
    hide Exec;
    if ys == [] {
      assert xs == [];
    } else {
      var y := ys[0];
      var rest := Hoist(h, queue, xs, y, limit);
      DrainsAgree(h, Exec(h, queue, y), rest, ys[1..], limit);
      HeadCounts(ys);
    }
  }

  lemma HeadCounts<T>(xs: seq<T>)
    requires xs != []
    ensures multiset(xs) == multiset{xs[0]} + multiset(xs[1..])
  {
    assert xs == [xs[0]] + xs[1..];
  }

  /** An advance split in two, drained in between, runs what one advance runs. */
  lemma SplitAdvanceAgrees(h: Handler, queue: multiset<Item>, first: seq<Item>, second: seq<Item>,
                           whole: seq<Item>, early: int, late: int)
    requires early <= late
    requires Legal(h, queue, first, early)
    requires Legal(h, After(h, queue, first), second, late)
    requires Quiet(After(h, After(h, queue, first), second), late)
    requires Legal(h, queue, whole, late) && Quiet(After(h, queue, whole), late)
    ensures multiset(first + second) == multiset(whole)
    ensures After(h, After(h, queue, first), second) == After(h, queue, whole)
  {
    LaterIsLegalToo(h, queue, first, early, late);
    RunsConcatenate(h, queue, first, second, late);
    DrainsAgree(h, queue, first + second, whole, late);
  }

  /* ---------------------------- which jobs run ---------------------------- */

  /** A chain of jobs, each put into the queue by the one before it. */
  ghost predicate Chain(h: Handler, queue: multiset<Item>, path: seq<Item>) {
    && path != [] && path[0] in queue
    && (forall k :: 0 < k < |path| ==> path[k] in Successors(h, path[k - 1]))
  }

  ghost predicate Reachable(h: Handler, queue: multiset<Item>, x: Item) {
    exists path :: Chain(h, queue, path) && path[|path| - 1] == x
  }

  /** A chain whose every job is due, so that each of them lets the next one in. */
  ghost predicate DueReachable(h: Handler, queue: multiset<Item>, x: Item, limit: int) {
    exists path :: Chain(h, queue, path) && path[|path| - 1] == x && AllDue(path, limit)
  }

  predicate AllDue(path: seq<Item>, limit: int) { forall k :: 0 <= k < |path| ==> path[k].runAt <= limit }

  /** Follow-ups are never scheduled before the instant their parent sees. */
  ghost predicate Patient(h: Handler) {
    forall x, y :: y in Successors(h, x) ==> y.runAt >= x.runAt
  }

  lemma {:induction false} ChainNeverGoesBack(h: Handler, path: seq<Item>)
    requires Patient(h) && path != []
    requires forall k :: 0 < k < |path| ==> path[k] in Successors(h, path[k - 1])
    ensures path[0].runAt <= path[|path| - 1].runAt
  {
    if |path| > 1 {
      assert path[1] in Successors(h, path[0]);
      forall k | 0 < k < |path[1..]| ensures path[1..][k] in Successors(h, path[1..][k - 1]) {
        assert path[k + 1] in Successors(h, path[k]);
      }
      ChainNeverGoesBack(h, path[1..]);
    }
  }

  lemma {:induction false} RunIsDueReachable(h: Handler, queue: multiset<Item>, xs: seq<Item>, x: Item, limit: int)
    requires Legal(h, queue, xs, limit) && x in xs
    ensures DueReachable(h, queue, x, limit) && x.runAt <= limit
    decreases xs
  {
    if x == xs[0] {
      assert Chain(h, queue, [x]) && [x][|[x]| - 1] == x && AllDue([x], limit);
    } else {
      RunIsDueReachable(h, Exec(h, queue, xs[0]), xs[1..], x, limit);
      var path :| Chain(h, Exec(h, queue, xs[0]), path) && path[|path| - 1] == x && AllDue(path, limit);
      ChainFromParent(h, queue, xs[0], path, limit);
    }
  }

  lemma QueuedOrSpawned(h: Handler, queue: multiset<Item>, parent: Item, x: Item)
    requires x in Exec(h, queue, parent) && x !in queue
    ensures x in Successors(h, parent)
  {
  }

  lemma ChainFromParent(h: Handler, queue: multiset<Item>, parent: Item, path: seq<Item>, limit: int)
    requires parent in queue && parent.runAt <= limit
    requires Chain(h, Exec(h, queue, parent), path) && AllDue(path, limit)
    ensures DueReachable(h, queue, path[|path| - 1], limit)
  {
    hide Exec, Successors;
    if path[0] in queue {
      assert Chain(h, queue, path);
    } else {
      QueuedOrSpawned(h, queue, parent, path[0]);
      var longer := [parent] + path;
      forall k | 0 < k < |longer| ensures longer[k] in Successors(h, longer[k - 1]) {
        if k > 1 { assert path[k - 1] in Successors(h, path[k - 2]); }
      }
      assert Chain(h, queue, longer) && longer[|longer| - 1] == path[|path| - 1] && AllDue(longer, limit);
    }
  }

  lemma {:induction false} QueuedIsRun(h: Handler, queue: multiset<Item>, xs: seq<Item>, x: Item, limit: int)
    requires Legal(h, queue, xs, limit) && Quiet(After(h, queue, xs), limit)
    requires x in queue && x.runAt <= limit
    ensures x in xs
    ensures forall y <- Successors(h, x) :: y.runAt <= limit ==> y in xs
    decreases xs
  {
    assert xs != [];
    var next := Exec(h, queue, xs[0]);
    if x == xs[0] {
      forall y | y in Successors(h, x) && y.runAt <= limit ensures y in xs {
        QueuedIsRun(h, next, xs[1..], y, limit);
      }
    } else {
      QueuedIsRun(h, next, xs[1..], x, limit);
    }
  }

  lemma {:induction false} SuccessorIsRun(h: Handler, queue: multiset<Item>, xs: seq<Item>, x: Item, y: Item, limit: int)
    requires Legal(h, queue, xs, limit) && Quiet(After(h, queue, xs), limit)
    requires x in xs && y in Successors(h, x) && y.runAt <= limit
    ensures y in xs
    decreases xs
  {
    if x == xs[0] {
      QueuedIsRun(h, queue, xs, x, limit);
    } else {
      SuccessorIsRun(h, Exec(h, queue, xs[0]), xs[1..], x, y, limit);
    }
  }

  lemma {:induction false} ChainIsRun(h: Handler, queue: multiset<Item>, xs: seq<Item>, path: seq<Item>, limit: int)
    requires Legal(h, queue, xs, limit) && Quiet(After(h, queue, xs), limit)
    requires Chain(h, queue, path) && AllDue(path, limit)
    ensures path[|path| - 1] in xs
    decreases |path|
  {
    hide Successors, Legal, After, Quiet;
    var n := |path| - 1;
    if n == 0 {
      QueuedIsRun(h, queue, xs, path[0], limit);
    } else {
      assert path[n] in Successors(h, path[n - 1]);
      ChainIsRun(h, queue, xs, path[..n], limit);
      SuccessorIsRun(h, queue, xs, path[n - 1], path[n], limit);
    }
  }

  /** A quiet run executes exactly the jobs that a chain of due jobs leads to, whatever the handler. */
  lemma RunsExactlyTheDueReachable(h: Handler, queue: multiset<Item>, xs: seq<Item>, x: Item, limit: int)
    requires Legal(h, queue, xs, limit) && Quiet(After(h, queue, xs), limit)
    ensures x in xs <==> DueReachable(h, queue, x, limit)
  {
    if x in xs {
      RunIsDueReachable(h, queue, xs, x, limit);
    } else if DueReachable(h, queue, x, limit) {
      var path :| Chain(h, queue, path) && path[|path| - 1] == x && AllDue(path, limit);
      ChainIsRun(h, queue, xs, path, limit);
    }
  }

  lemma PatientChainIsDue(h: Handler, queue: multiset<Item>, path: seq<Item>, limit: int)
    requires Patient(h) && Chain(h, queue, path) && path[|path| - 1].runAt <= limit
    ensures AllDue(path, limit)
  {
    hide Successors, Patient;
    forall k | 0 <= k < |path| ensures path[k].runAt <= limit {
      forall i | 0 < i < |path[k..]| ensures path[k..][i] in Successors(h, path[k..][i - 1]) {
        assert path[k + i] in Successors(h, path[k + i - 1]);
      }
      ChainNeverGoesBack(h, path[k..]);
    }
  }

  /** With a patient handler those are the jobs reachable from the queue that are due. */
  lemma RunsExactlyTheReachable(h: Handler, queue: multiset<Item>, xs: seq<Item>, x: Item, limit: int)
    requires Patient(h) && Legal(h, queue, xs, limit) && Quiet(After(h, queue, xs), limit)
    ensures x in xs <==> Reachable(h, queue, x) && x.runAt <= limit
  {
    RunsExactlyTheDueReachable(h, queue, xs, x, limit);
    if DueReachable(h, queue, x, limit) {
      var path :| Chain(h, queue, path) && path[|path| - 1] == x && AllDue(path, limit);
    } else if Reachable(h, queue, x) && x.runAt <= limit {
      var path :| Chain(h, queue, path) && path[|path| - 1] == x;
      PatientChainIsDue(h, queue, path, limit);
    }
  }
}
