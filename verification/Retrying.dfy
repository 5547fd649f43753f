/** How often a job runs, and when, by how its handler keeps ending. */
module Retrying {
  import opened Options
  import opened JobRuns
  import opened Scheduler

  /** The handler ends this way for every attempt at this work. */
  ghost predicate Always(h: Handler, work: Work, ending: Ending) {
    forall x: Item, at: int :: x.work == work ==> h(x, at).ending == ending
  }

  /** A thrown job waits a second, then twice as long each time, and never more than a minute; a handler that asks for a
      retry says how long itself. */
  function Wait(ending: Ending, k: nat): int {
    if ending.RetryIn? then if ending.ms > 0 then ending.ms else 0
    else if k < 6 then [1_000, 2_000, 4_000, 8_000, 16_000, 32_000][k] else 60_000
  }

  /** When attempt `k` of a job is due. */
  function DueAt(first: Job, ending: Ending, k: nat): int {
    if k == 0 then first.runAt else DueAt(first, ending, k - 1) + Wait(ending, k - 1)
  }

  function Attempt(first: Job, ending: Ending, k: nat): Item {
    Item(first.work, k, first.maxAttempts, DueAt(first, ending, k))
  }

  /** The first attempts of a job. */
  function FirstAttempts(first: Job, ending: Ending, n: nat): seq<Item> {
    if n == 0 then [] else FirstAttempts(first, ending, n - 1) + [Attempt(first, ending, n - 1)]
  }

  /** How many attempts there are to be: all that are allowed while the handler fails, and one if it does not, or is not
      there. */
  function Allowed(first: Job, ending: Ending): nat {
    if (ending.Throw? || ending.RetryIn?) && first.maxAttempts > 1 then first.maxAttempts else 1
  }

  /** What a log shows of one job. */
  function SeenOf(log: seq<Entry>, id: nat): seq<Item> {
    if log == [] then [] else
    SeenOf(log[..|log| - 1], id) + if log[|log| - 1].id == id then [log[|log| - 1].item] else []
  }

  lemma {:induction false} Pow2AtLeast(k: nat)
    requires k >= 6
    ensures Pow2(k) >= 64
  {
    if k == 6 {
      assert Pow2(3) == 8;
    } else {
      Pow2AtLeast(k - 1);
    }
  }

  lemma BackoffDoublesToAMinute(k: nat)
    ensures DefaultBackoffMs(k) == Wait(Throw, k)
  {
    if k >= 6 {
      Pow2AtLeast(k);
    } else {
      assert Pow2(1) == 2 && Pow2(2) == 4 && Pow2(3) == 8 && Pow2(4) == 16 && Pow2(5) == 32;
    }
  }

  lemma {:induction false} DueInOrder(first: Job, ending: Ending, j: nat, k: nat)
    requires j <= k
    ensures DueAt(first, ending, j) <= DueAt(first, ending, k)
  {
    if j < k { DueInOrder(first, ending, j, k - 1); }
  }

  /** A row on its way through its attempts: waiting for the next, or spent. */
  predicate Climbs(first: Job, ending: Ending, row: Job, seen: seq<Item>, now: int) {
    && row.work == first.work && row.maxAttempts == first.maxAttempts
    && row.attempt < Allowed(first, ending) && row.runAt == DueAt(first, ending, row.attempt)
    && (if row.status == Ready then
          && seen == FirstAttempts(first, ending, row.attempt)
          && (row.attempt > 0 ==> DueAt(first, ending, row.attempt - 1) <= now)
        else
          && row.status == (if ending.Complete? then Done else Failed)
          && row.attempt + 1 == Allowed(first, ending) && row.runAt <= now
          && seen == FirstAttempts(first, ending, Allowed(first, ending)))
  }

  lemma RunRowClimbs(first: Job, ending: Ending, row: Job, seen: seq<Item>, now: int)
    requires Climbs(first, ending, row, seen, now) && row.status == Ready && row.runAt <= now
    ensures Climbs(first, ending, RowAfter(row, ending), seen + [row.AsItem()], now)
  {
    hide DefaultBackoffMs, Wait, RetryDelay;
    if ending.Throw? || ending.RetryIn? { DelayIsTheWait(row.AsItem(), ending); }
  }

  lemma DelayIsTheWait(x: Item, ending: Ending)
    requires ending.Throw? || ending.RetryIn?
    ensures RetryDelay(x, ending) == Wait(ending, x.attempt)
  {
    BackoffDoublesToAMinute(x.attempt);
    hide DefaultBackoffMs;
  }

  /* ---------------------------- one batch ---------------------------- */

  /** A row after a batch: run once if the batch has it, and otherwise as it was. */
  lemma {:induction false} OwnRow(h: Handler, jobs: seq<Job>, batch: seq<nat>, id: nat)
    requires Distinct(batch) && id < |jobs| && forall a :: 0 <= a < |batch| ==> batch[a] < |jobs|
    ensures var after := RunRows(h, jobs, batch);
            && |jobs| <= |after|
            && after[id] == if id in batch then RowAfter(jobs[id], h(jobs[id].AsItem(), jobs[id].runAt).ending) else jobs[id]
  {
    hide RowAfter, Asked, FreshRow, RunRow;
    if batch != [] {
      var n := |batch| - 1;
      OwnRow(h, jobs, batch[..n], id);
      assert batch == batch[..n] + [batch[n]];
      var before := RunRows(h, jobs, batch[..n]);
      assert RunRows(h, jobs, batch) == RunRow(h, before, batch[n]);
      hide RunRows;
      RunRowElsewhere(h, before, batch[n]);
      RunRowItself(h, before, batch[n]);
    }
  }

  lemma RunRowItself(h: Handler, jobs: seq<Job>, id: nat)
    requires id < |jobs|
    ensures id < |RunRow(h, jobs, id)|
    ensures RunRow(h, jobs, id)[id] == RowAfter(jobs[id], h(jobs[id].AsItem(), jobs[id].runAt).ending)
  {
    hide RowAfter, Asked, FreshRow;
  }

  lemma {:induction false} SeenOfMore(log: seq<Entry>, more: seq<Entry>, id: nat)
    ensures SeenOf(log + more, id) == SeenOf(log, id) + SeenOf(more, id)
  {
    if more == [] {
      assert log + more == log;
    } else {
      var n := |more| - 1;
      assert (log + more)[..|log + more| - 1] == log + more[..n];
      SeenOfMore(log, more[..n], id);
    }
  }

  lemma {:induction false} SeenOfBatch(before: seq<Job>, batch: seq<nat>, id: nat)
    requires Distinct(batch) && forall a :: 0 <= a < |batch| ==> batch[a] < |before|
    ensures id in batch ==> id < |before|
    ensures SeenOf(ClaimedEntries(before, batch), id) == if id in batch then [before[id].AsItem()] else []
  {
    if batch != [] {
      var n := |batch| - 1;
      SeenOfBatch(before, batch[..n], id);
      assert batch == batch[..n] + [batch[n]];
      assert ClaimedEntries(before, batch)[..n] == ClaimedEntries(before, batch[..n]);
    }
  }

  lemma RoundClimbs(h: Handler, size: nat, now: int, r: Round, id: nat, first: Job, ending: Ending, seen: seq<Item>)
    requires r.Ran(h, size, now) && id < |r.before| && Always(h, first.work, ending)
    requires Climbs(first, ending, r.before[id], seen, now)
    ensures id < |r.after| && Climbs(first, ending, r.after[id], seen + SeenOf(r.Entries(), id), now)
  {
    hide Climbs, RunRows, RowAfter, SeenOf, ClaimedEntries;
    assert Distinct(r.batch) by {
      forall a, b | 0 <= a < b < |r.batch| ensures r.batch[a] != r.batch[b] { assert Before(r.before, r.batch[a], r.batch[b]); }
    }
    OwnRow(h, r.before, r.batch, id);
    SeenOfBatch(r.before, r.batch, id);
    if id in r.batch {
      var row := r.before[id];
      assert row.status == Ready && row.runAt <= now;
      assert row.work == first.work by { SameWork(first, ending, row, seen, now); }
      assert h(row.AsItem(), row.runAt).ending == ending;
      RunRowClimbs(first, ending, row, seen, now);
    } else {
      assert seen + [] == seen;
    }
  }

  lemma SameWork(first: Job, ending: Ending, row: Job, seen: seq<Item>, now: int)
    requires Climbs(first, ending, row, seen, now)
    ensures row.work == first.work
  {
  }

  /* ---------------------------- a whole drain ---------------------------- */

  lemma {:induction false} DrainClimbs(h: Handler, size: nat, now: int, rounds: seq<Round>, start: seq<Job>, end: seq<Job>,
                                       id: nat, ending: Ending)
    requires Rounds(rounds, h, size, now) && Spans(rounds, start, end) && id < |start|
    requires start[id].status == Ready && start[id].attempt == 0 && Always(h, start[id].work, ending)
    ensures id < |end| && Climbs(start[id], ending, end[id], SeenOf(Executed(rounds), id), now)
    decreases |rounds|
  {
    hide Always, Round.Ran, SeenOf;
    if rounds == [] {
      assert SeenOf([], id) == [] by { NothingSeen(id); }
    } else {
      var n := |rounds| - 1;
      var r := rounds[n];
      assert Spans(rounds[..n], start, r.before);
      DrainClimbs(h, size, now, rounds[..n], start, r.before, id, ending);
      RoundClimbs(h, size, now, r, id, start[id], ending, SeenOf(Executed(rounds[..n]), id));
      SeenOfMore(Executed(rounds[..n]), r.Entries(), id);
    }
  }

  lemma NothingSeen(id: nat)
    ensures SeenOf([], id) == []
  {
  }

  /**
   * A job that was waiting for its first attempt, drained until nothing is due: it has run exactly the attempts that have
   * come due, each at its own instant, one wait after the one before it, and no more than it is allowed; and it is over
   * exactly when it has run them all.
   */
  lemma RunsWhatHasComeDue(h: Handler, size: nat, now: int, rounds: seq<Round>, start: seq<Job>, end: seq<Job>,
                           id: nat, ending: Ending) returns (n: nat)
    requires Rounds(rounds, h, size, now) && Spans(rounds, start, end) && NoneDue(end, now)
    requires id < |start| && start[id].status == Ready && start[id].attempt == 0 && Always(h, start[id].work, ending)
    ensures n <= Allowed(start[id], ending) && SeenOf(Executed(rounds), id) == FirstAttempts(start[id], ending, n)
    ensures forall k: nat :: k < Allowed(start[id], ending) ==> (k < n <==> DueAt(start[id], ending, k) <= now)
    ensures id < |end|
    ensures n == Allowed(start[id], ending) <==> end[id].status == if ending.Complete? then Done else Failed
  {
    hide Rounds, Spans, Executed, SeenOf, Always, FirstAttempts, DueAt;
    DrainClimbs(h, size, now, rounds, start, end, id, ending);
    var row, first := end[id], start[id];
    n := if row.status == Ready then row.attempt else Allowed(first, ending);
    if row.status == Ready { assert row in end && !IsDue(row, now); }
    forall k: nat | k < Allowed(first, ending) ensures k < n <==> DueAt(first, ending, k) <= now {
      if k < n { DueInOrder(first, ending, k, n - 1); } else { DueInOrder(first, ending, n, k); }
    }
  }

  /** So a handler that throws every time, given time enough, runs exactly as often as the job allows. */
  lemma ThrownUntilSpent(h: Handler, size: nat, now: int, rounds: seq<Round>, start: seq<Job>, end: seq<Job>, id: nat)
    requires Rounds(rounds, h, size, now) && Spans(rounds, start, end) && NoneDue(end, now)
    requires id < |start| && start[id].status == Ready && start[id].attempt == 0 && Always(h, start[id].work, Throw)
    requires start[id].maxAttempts >= 1 && DueAt(start[id], Throw, start[id].maxAttempts - 1) <= now
    ensures SeenOf(Executed(rounds), id) == FirstAttempts(start[id], Throw, start[id].maxAttempts)
    ensures id < |end| && end[id].status == Failed
  {
    hide Rounds, Spans, Executed, SeenOf, Always, FirstAttempts, DueAt, NoneDue;
    var n := RunsWhatHasComeDue(h, size, now, rounds, start, end, id, Throw);
  }

  /* ---------------------------- follow-ups ---------------------------- */

  lemma {:induction false} RequestIsFresh(requests: seq<Request>, k: nat)
    requires k < |requests|
    ensures Item(requests[k].work, 0, requests[k].maxAttempts, requests[k].runAt) in FreshAll(requests)
  {
    var n := |requests| - 1;
    if k < n { RequestIsFresh(requests[..n], k); }
  }

  /** What a handler asks for while a job runs is run too, when it comes due, whether or not the handler then fails. */
  lemma FollowUpsRunToo(h: Handler, queue: multiset<Item>, xs: seq<Item>, x: Item, k: nat, limit: int)
    requires Legal(h, queue, xs, limit) && Quiet(After(h, queue, xs), limit) && x in xs
    requires !h(x, x.runAt).ending.Unhandled? && k < |h(x, x.runAt).followUps|
    ensures var r := h(x, x.runAt).followUps[k];
            r.runAt <= limit ==> Item(r.work, 0, r.maxAttempts, r.runAt) in xs
  {
    var r := h(x, x.runAt).followUps[k];
    RequestIsFresh(h(x, x.runAt).followUps, k);
    hide FreshAll, Legal, After, Quiet, Retries, NextAttempt;
    if r.runAt <= limit { SuccessorIsRun(h, queue, xs, x, Item(r.work, 0, r.maxAttempts, r.runAt), limit); }
  }

  /** A job of a kind nobody handles ends with its only run, and asks for nothing. */
  lemma UnhandledAsksForNothing(h: Handler, queue: multiset<Item>, x: Item)
    requires h(x, x.runAt).ending.Unhandled?
    ensures Exec(h, queue, x) == queue - multiset{x}
  {
  }
}
