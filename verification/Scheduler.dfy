/** The job table and the scheduler that drains it on virtual time. */
module Scheduler {
  import opened Options
  import opened Clock
  import opened JobRuns

  datatype JobStatus = Ready | Leased | Done | Failed

  datatype Job = Job(work: Work, status: JobStatus, runAt: int, attempt: nat, maxAttempts: int,
                     leaseExpiresAt: Option<int>)
  {
    function AsItem(): Item { Item(work, attempt, maxAttempts, runAt) }

    predicate Waiting() { status == Ready || status == Leased }
  }

  /** One execution: which job's handler ran, and what it saw. */
  datatype Entry = Entry(id: nat, item: Item)

  /* ---------------------------- views of the table ---------------------------- */

  /** The jobs that have still to run. */
  function Queue(jobs: seq<Job>): multiset<Item> {
    if jobs == [] then multiset{} else
    var last := jobs[|jobs| - 1];
    Queue(jobs[..|jobs| - 1]) + (if last.Waiting() then multiset{last.AsItem()} else multiset{})
  }

  predicate IsDue(job: Job, now: int) { job.status == Ready && job.runAt <= now }

  predicate NoneDue(jobs: seq<Job>, now: int) { forall job <- jobs :: !IsDue(job, now) }

  predicate NoneLeased(jobs: seq<Job>) { forall job <- jobs :: job.status != Leased }

  /** By due time, then by enqueue order. */
  predicate Before(jobs: seq<Job>, i: nat, j: nat)
    requires i < |jobs| && j < |jobs|
  {
    jobs[i].runAt < jobs[j].runAt || (jobs[i].runAt == jobs[j].runAt && i < j)
  }

  function Items(log: seq<Entry>): seq<Item> { seq(|log|, k requires 0 <= k < |log| => log[k].item) }

  function RunsOf(log: seq<Entry>, id: nat): nat {
    if log == [] then 0 else
    RunsOf(log[..|log| - 1], id) + (if log[|log| - 1].id == id then 1 else 0)
  }

  function QueuedAs(job: Job): multiset<Item> { if job.Waiting() then multiset{job.AsItem()} else multiset{} }

  lemma QueueAppend(jobs: seq<Job>, job: Job)
    ensures Queue(jobs + [job]) == Queue(jobs) + QueuedAs(job)
  {
    assert (jobs + [job])[..|jobs|] == jobs;
  }

  lemma ReplaceUnder<T>(all: multiset<T>, out: multiset<T>, in_: multiset<T>, rest: multiset<T>)
    requires out <= all
    ensures all - out + in_ + rest == all + rest - out + in_ && out <= all + rest
  {
  }

  lemma {:induction false} QueueUpdate(jobs: seq<Job>, i: nat, job: Job)
    requires i < |jobs|
    ensures Queue(jobs[i := job]) == Queue(jobs) - QueuedAs(jobs[i]) + QueuedAs(job)
    ensures QueuedAs(jobs[i]) <= Queue(jobs)
  {
    var n := |jobs| - 1;
    var updated := jobs[i := job];
    assert jobs == jobs[..n] + [jobs[n]] && updated == updated[..n] + [updated[n]];
    QueueAppend(jobs[..n], jobs[n]);
    QueueAppend(updated[..n], updated[n]);
    hide Queue, QueuedAs;
    if i < n {
      assert updated[..n] == jobs[..n][i := job];
      QueueUpdate(jobs[..n], i, job);
      ReplaceUnder(Queue(jobs[..n]), QueuedAs(jobs[i]), QueuedAs(job), QueuedAs(jobs[n]));
    } else {
      assert updated[..n] == jobs[..n];
    }
  }

  lemma {:induction false} QueuedHasRow(jobs: seq<Job>, x: Item)
    requires x in Queue(jobs)
    ensures exists job <- jobs :: job.Waiting() && job.AsItem() == x
  {
    var n := |jobs| - 1;
    if jobs[n].Waiting() && jobs[n].AsItem() == x {
      assert jobs[n] in jobs;
    } else {
      QueuedHasRow(jobs[..n], x);
    }
  }

  /** With no lease outstanding, nothing due means the queue is quiet. */
  lemma NoneDueIsQuiet(jobs: seq<Job>, now: int)
    requires NoneLeased(jobs) && NoneDue(jobs, now)
    ensures Quiet(Queue(jobs), now)
  {
    forall x | x in Queue(jobs) ensures x.runAt > now { QueuedHasRow(jobs, x); }
  }

  lemma ItemsAppend(log: seq<Entry>, more: seq<Entry>)
    ensures Items(log + more) == Items(log) + Items(more)
  {
  }

  /** `batch` leased out of `before`: ready and due, strictly in order, ahead of all that stay due. */
  predicate Claimed(before: seq<Job>, jobs: seq<Job>, batch: seq<nat>, leaseUntil: int, now: int) {
    && |jobs| == |before|
    && (forall a :: 0 <= a < |batch| ==> batch[a] < |before| && IsDue(before[batch[a]], now))
    && (forall a, b :: 0 <= a < b < |batch| ==> Before(before, batch[a], batch[b]))
    && (forall i :: 0 <= i < |jobs| ==>
          jobs[i] == if i in batch then before[i].(status := Leased, leaseExpiresAt := Some(leaseUntil)) else before[i])
    && (forall a, j :: 0 <= a < |batch| && 0 <= j < |jobs| && IsDue(jobs[j], now) ==> Before(before, batch[a], j))
  }

  lemma ClaimOneMore(before: seq<Job>, jobs: seq<Job>, batch: seq<nat>, leaseUntil: int, now: int, best: nat)
    requires Claimed(before, jobs, batch, leaseUntil, now)
    requires best < |jobs| && IsDue(jobs[best], now)
    requires forall i :: 0 <= i < |jobs| && i != best && IsDue(jobs[i], now) ==> Before(jobs, best, i)
    ensures best !in batch
    ensures Claimed(before, jobs[best := jobs[best].(status := Leased, leaseExpiresAt := Some(leaseUntil))],
                    batch + [best], leaseUntil, now)
  {
    var after := jobs[best := jobs[best].(status := Leased, leaseExpiresAt := Some(leaseUntil))];
    var more := batch + [best];
    forall a, b | 0 <= a < b < |more| ensures Before(before, more[a], more[b]) {
      if b == |batch| { assert more[a] == batch[a]; } else { assert more[a] == batch[a] && more[b] == batch[b]; }
    }
    forall a, j | 0 <= a < |more| && 0 <= j < |after| && IsDue(after[j], now) ensures Before(before, more[a], j) {
      if a == |batch| { assert Before(jobs, best, j); } else { assert more[a] == batch[a]; }
    }
  }

  /** What one execution does to the table: its own row moves on, follow-ups join at the end. */
  predicate Advanced(before: seq<Job>, after: seq<Job>, id: nat)
    requires id < |before|
  {
    && Extends(before, after, id)
    && after[id].status != Leased && after[id].maxAttempts == before[id].maxAttempts
    && (if after[id].Waiting()
        then after[id].attempt == before[id].attempt + 1 < after[id].maxAttempts
        else after[id].attempt == before[id].attempt)
  }

  /** Every row but one as it was, and only fresh ready jobs added. */
  predicate Extends(before: seq<Job>, after: seq<Job>, id: nat) {
    && |before| <= |after|
    && (forall i :: 0 <= i < |before| && i != id ==> after[i] == before[i])
    && (forall i :: |before| <= i < |after| ==> after[i].status == Ready && after[i].attempt == 0)
  }

  lemma ExtendsByFresh(before: seq<Job>, queued: seq<Job>, id: nat, row: Job)
    requires id < |before| <= |queued| && queued[..|before|] == before
    requires forall i :: |before| <= i < |queued| ==> queued[i].status == Ready && queued[i].attempt == 0
    ensures queued[id] == before[id] && Extends(before, queued[id := row], id)
  {
    forall i | 0 <= i < |before| ensures queued[i] == before[i] {
      assert queued[i] == queued[..|before|][i];
    }
  }

  /** A job has run once per attempt made, and attempts stop short of the maximum. */
  predicate Attempted(jobs: seq<Job>, log: seq<Entry>, i: nat) {
    if i < |jobs| then
      && RunsOf(log, i) == jobs[i].attempt + (if jobs[i].Waiting() then 0 else 1)
      && (jobs[i].attempt == 0 || jobs[i].attempt < jobs[i].maxAttempts)
    else RunsOf(log, i) == 0
  }

  ghost predicate Attempts(jobs: seq<Job>, log: seq<Entry>) { forall i: nat :: Attempted(jobs, log, i) }

  /** Without expired leases, a handler runs at most `maxAttempts` times for a job, and at most once if that is less. */
  lemma RunsAtMostMaxAttempts(jobs: seq<Job>, log: seq<Entry>, i: nat)
    requires Attempts(jobs, log) && i < |jobs|
    ensures RunsOf(log, i) <= if jobs[i].maxAttempts > 1 then jobs[i].maxAttempts else 1
  {
    assert Attempted(jobs, log, i);
  }

  lemma ClaimedKeepsAttempts(before: seq<Job>, jobs: seq<Job>, batch: seq<nat>, leaseUntil: int, now: int, log: seq<Entry>)
    requires Claimed(before, jobs, batch, leaseUntil, now) && Attempts(before, log)
    ensures Attempts(jobs, log)
  {
    forall i: nat ensures Attempted(jobs, log, i) {
      assert Attempted(before, log, i);
      if i < |jobs| && i in batch { var a :| 0 <= a < |batch| && batch[a] == i; }
    }
  }

  lemma AttemptMade(before: seq<Job>, after: seq<Job>, id: nat, log: seq<Entry>, x: Item)
    requires id < |before| && before[id].Waiting() && Advanced(before, after, id) && Attempts(before, log)
    ensures Attempts(after, log + [Entry(id, x)])
  {
    forall i: nat ensures Attempted(after, log + [Entry(id, x)], i) {
      assert Attempted(before, log, i);
      assert (log + [Entry(id, x)])[..|log|] == log;
    }
  }

  /* ---------------------------- what a batch does to the table ---------------------------- */

  /** The row of a leased job once its handler has ended. */
  function RowAfter(job: Job, ending: Ending): Job {
    if Retries(job.AsItem(), ending) then
      job.(status := Ready, attempt := job.attempt + 1, leaseExpiresAt := None,
           runAt := job.runAt + RetryDelay(job.AsItem(), ending))
    else job.(status := if ending.Complete? then Done else Failed, leaseExpiresAt := None)
  }

  /** What a reaction asks to be queued; a kind nobody handles asks for nothing. */
  function Asked(reaction: Reaction): seq<Request> { if reaction.ending.Unhandled? then [] else reaction.followUps }

  function FreshRow(r: Request): Job { Job(r.work, Ready, r.runAt, 0, r.maxAttempts, None) }

  function FreshRows(requests: seq<Request>): (rows: seq<Job>)
    ensures |rows| == |requests| && forall k :: 0 <= k < |rows| ==> rows[k] == FreshRow(requests[k])
  {
    seq(|requests|, k requires 0 <= k < |requests| => FreshRow(requests[k]))
  }

  /** The table once one of its jobs has run: its follow-ups at the end, its own row moved on. */
  function RunRow(h: Handler, jobs: seq<Job>, id: nat): seq<Job> {
    if id >= |jobs| then jobs else
    var reaction := h(jobs[id].AsItem(), jobs[id].runAt);
    (jobs + FreshRows(Asked(reaction)))[id := RowAfter(jobs[id], reaction.ending)]
  }

  /** The table once a batch has run, job by job. */
  function RunRows(h: Handler, jobs: seq<Job>, batch: seq<nat>): seq<Job> {
    if batch == [] then jobs else RunRow(h, RunRows(h, jobs, batch[..|batch| - 1]), batch[|batch| - 1])
  }

  lemma OneMoreFresh(before: seq<Job>, jobs: seq<Job>, requests: seq<Request>, k: nat)
    requires k < |requests| && jobs == before + FreshRows(requests)[..k]
    requires Queue(jobs) == Queue(before) + FreshAll(requests[..k])
    ensures jobs + [FreshRow(requests[k])] == before + FreshRows(requests)[..k + 1]
    ensures Queue(jobs + [FreshRow(requests[k])]) == Queue(before) + FreshAll(requests[..k + 1])
  {
    hide Queue, FreshAll, FreshRow, FreshRows, QueuedAs;
    QueueAppend(jobs, FreshRow(requests[k]));
    FreshAllMore(requests, k);
    UnionAssociates(Queue(before), FreshAll(requests[..k]), QueuedAs(FreshRow(requests[k])));
    LongerTake(before, FreshRows(requests), k);
  }

  lemma LongerTake<T>(before: seq<T>, rows: seq<T>, k: nat)
    requires k < |rows|
    ensures before + rows[..k] + [rows[k]] == before + rows[..k + 1]
  {
  }

  lemma UnionAssociates<T>(a: multiset<T>, b: multiset<T>, c: multiset<T>)
    ensures a + b + c == a + (b + c)
  {
  }

  lemma FreshAllMore(requests: seq<Request>, k: nat)
    requires k < |requests|
    ensures FreshAll(requests[..k + 1]) == FreshAll(requests[..k]) + QueuedAs(FreshRow(requests[k]))
  {
    assert requests[..k + 1][..k] == requests[..k];
  }

  predicate Distinct(batch: seq<nat>) { forall a, b :: 0 <= a < b < |batch| ==> batch[a] != batch[b] }

  lemma OneMoreRun(h: Handler, jobs: seq<Job>, batch: seq<nat>, k: nat)
    requires k < |batch|
    ensures RunRows(h, jobs, batch[..k + 1]) == RunRow(h, RunRows(h, jobs, batch[..k]), batch[k])
  {
    assert batch[..k + 1][..k] == batch[..k];
  }

  lemma RunRowElsewhere(h: Handler, jobs: seq<Job>, id: nat)
    requires id < |jobs|
    ensures var after := RunRow(h, jobs, id);
            |jobs| <= |after| && forall i :: 0 <= i < |jobs| && i != id ==> after[i] == jobs[i]
  {
    hide RowAfter, Asked, FreshRow;
  }

  lemma {:induction false} RunRowsElsewhere(h: Handler, jobs: seq<Job>, batch: seq<nat>, k: nat)
    requires Distinct(batch) && k <= |batch| && forall a :: 0 <= a < |batch| ==> batch[a] < |jobs|
    ensures var table := RunRows(h, jobs, batch[..k]);
            |jobs| <= |table| && forall i :: 0 <= i < |jobs| && i !in batch[..k] ==> table[i] == jobs[i]
  {
    if k > 0 {
      hide RunRow, RunRows;
      assert batch[..k] == batch[..k - 1] + [batch[k - 1]];
      RunRowsElsewhere(h, jobs, batch, k - 1);
      OneMoreRun(h, jobs, batch, k - 1);
      RunRowElsewhere(h, RunRows(h, jobs, batch[..k - 1]), batch[k - 1]);
    }
  }

  lemma SameRunWhateverTheLease(h: Handler, a: seq<Job>, b: seq<Job>, id: nat)
    requires id < |a| == |b|
    requires a[id] == b[id].(status := a[id].status, leaseExpiresAt := a[id].leaseExpiresAt)
    ensures var mine, theirs := RunRow(h, a, id), RunRow(h, b, id);
            && |mine| == |theirs| >= |a| && mine[id] == theirs[id]
            && (forall i :: 0 <= i < |a| && i != id ==> mine[i] == a[i] && theirs[i] == b[i])
            && (forall i :: |a| <= i < |mine| ==> mine[i] == theirs[i])
  {
    var reaction := h(a[id].AsItem(), a[id].runAt);
    assert a[id].AsItem() == b[id].AsItem();
    SameRowWhateverTheLease(a[id], b[id], reaction.ending);
    hide Job.AsItem, Asked, RowAfter, FreshRows;
    assert RunRow(h, a, id) == (a + FreshRows(Asked(reaction)))[id := RowAfter(a[id], reaction.ending)];
    assert RunRow(h, b, id) == (b + FreshRows(Asked(reaction)))[id := RowAfter(a[id], reaction.ending)];
    hide RunRow;
  }

  lemma SameRowWhateverTheLease(a: Job, b: Job, ending: Ending)
    requires a == b.(status := a.status, leaseExpiresAt := a.leaseExpiresAt)
    ensures RowAfter(a, ending) == RowAfter(b, ending)
  {
  }

  /** What a run makes of a row does not depend on the lease it holds. */
  lemma {:induction false} LeasesDoNotMatter(h: Handler, before: seq<Job>, claimed: seq<Job>, batch: seq<nat>, k: nat)
    requires Distinct(batch) && k <= |batch| && LeasedOnly(before, claimed, batch)
    ensures AlikeBut(RunRows(h, claimed, batch[..k]), RunRows(h, before, batch[..k]), batch[k..])
  {
    if k == 0 {
      assert batch[0..] == batch && batch[..0] == [];
    } else {
      var id := batch[k - 1];
      assert batch[k - 1..] == [id] + batch[k..];
      LeasesDoNotMatter(h, before, claimed, batch, k - 1);
      RunRowsElsewhere(h, claimed, batch, k - 1);
      RunRowsElsewhere(h, before, batch, k - 1);
      OneMoreRun(h, claimed, batch, k - 1);
      OneMoreRun(h, before, batch, k - 1);
      var mine, theirs := RunRows(h, claimed, batch[..k - 1]), RunRows(h, before, batch[..k - 1]);
      assert mine[id] == claimed[id] && theirs[id] == before[id];
      hide RunRows, RunRow;
      SameRunWhateverTheLease(h, mine, theirs, id);
      AlikeAfter(mine, theirs, RunRow(h, mine, id), RunRow(h, theirs, id), id, batch[k..]);
    }
  }

  /** Rows of the batch may differ in their lease, and no other row differs. */
  predicate LeasedOnly(before: seq<Job>, claimed: seq<Job>, batch: seq<nat>) {
    && |claimed| == |before| && (forall a :: 0 <= a < |batch| ==> batch[a] < |before|)
    && (forall i :: 0 <= i < |before| ==>
          && claimed[i] == before[i].(status := claimed[i].status, leaseExpiresAt := claimed[i].leaseExpiresAt)
          && (i !in batch ==> claimed[i] == before[i]))
  }

  predicate AlikeBut(mine: seq<Job>, theirs: seq<Job>, rest: seq<nat>) {
    |mine| == |theirs| && forall i :: 0 <= i < |mine| && i !in rest ==> mine[i] == theirs[i]
  }

  lemma AlikeAfter(mine: seq<Job>, theirs: seq<Job>, mineAfter: seq<Job>, theirsAfter: seq<Job>, id: nat, rest: seq<nat>)
    requires id < |mine| && AlikeBut(mine, theirs, [id] + rest)
    requires |mineAfter| == |theirsAfter| >= |mine| && mineAfter[id] == theirsAfter[id]
    requires forall i :: 0 <= i < |mine| && i != id ==> mineAfter[i] == mine[i] && theirsAfter[i] == theirs[i]
    requires forall i :: |mine| <= i < |mineAfter| ==> mineAfter[i] == theirsAfter[i]
    ensures AlikeBut(mineAfter, theirsAfter, rest)
  {
  }

  /* ---------------------------- the batch in flight ---------------------------- */

  /** After `k` jobs of the batch: the rest still hold their leases, and nothing else does. */
  predicate Remaining(claimed: seq<Job>, jobs: seq<Job>, batch: seq<nat>, k: nat) {
    && |claimed| <= |jobs| && k <= |batch|
    && (forall a :: k <= a < |batch| ==> batch[a] < |claimed| && jobs[batch[a]] == claimed[batch[a]])
    && (forall i :: 0 <= i < |jobs| && jobs[i].status == Leased ==> i in batch[k..])
  }

  function ClaimedEntries(claimed: seq<Job>, batch: seq<nat>): seq<Entry>
    requires forall a :: 0 <= a < |batch| ==> batch[a] < |claimed|
  {
    seq(|batch|, a requires 0 <= a < |batch| => Entry(batch[a], claimed[batch[a]].AsItem()))
  }

  /** Executed by due time, enqueue order breaking ties. */
  predicate InOrder(entries: seq<Entry>) {
    forall a, b :: 0 <= a < b < |entries| ==>
      || entries[a].item.runAt < entries[b].item.runAt
      || (entries[a].item.runAt == entries[b].item.runAt && entries[a].id < entries[b].id)
  }

  lemma RemainingHead(before: seq<Job>, claimed: seq<Job>, jobs: seq<Job>, batch: seq<nat>, k: nat, leaseUntil: int, now: int)
    requires Claimed(before, claimed, batch, leaseUntil, now) && Remaining(claimed, jobs, batch, k) && k < |batch|
    ensures batch[k] < |claimed| && jobs[batch[k]] == claimed[batch[k]]
    ensures claimed[batch[k]].status == Leased && claimed[batch[k]].runAt <= now
  {
    assert batch[k] in batch;
  }

  lemma RemainingTail(before: seq<Job>, claimed: seq<Job>, jobs: seq<Job>, after: seq<Job>, batch: seq<nat>, k: nat,
                      leaseUntil: int, now: int)
    requires Claimed(before, claimed, batch, leaseUntil, now) && Remaining(claimed, jobs, batch, k) && k < |batch|
    requires batch[k] < |jobs| && Advanced(jobs, after, batch[k])
    ensures Remaining(claimed, after, batch, k + 1)
  {
    forall a | k + 1 <= a < |batch| ensures batch[a] < |claimed| && after[batch[a]] == claimed[batch[a]] {
      assert Before(before, batch[k], batch[a]);
    }
    forall i | 0 <= i < |after| && after[i].status == Leased ensures i in batch[k + 1..] {
      assert i in batch[k..] && i != batch[k];
      assert batch[k..] == [batch[k]] + batch[k + 1..];
    }
  }

  lemma ClaimedInOrder(before: seq<Job>, claimed: seq<Job>, batch: seq<nat>, leaseUntil: int, now: int)
    requires Claimed(before, claimed, batch, leaseUntil, now)
    ensures (forall a :: 0 <= a < |batch| ==> batch[a] < |claimed|) && InOrder(ClaimedEntries(claimed, batch))
  {
    forall a, b | 0 <= a < b < |batch|
      ensures claimed[batch[a]].runAt == before[batch[a]].runAt && claimed[batch[b]].runAt == before[batch[b]].runAt
      ensures Before(before, batch[a], batch[b])
    {
      assert batch[a] in batch && batch[b] in batch;
    }
  }

  lemma OneIsLegal(h: Handler, queue: multiset<Item>, x: Item, now: int)
    requires x in queue && x.runAt <= now
    ensures Legal(h, queue, [x], now) && After(h, queue, [x]) == Exec(h, queue, x)
  {
    hide Exec;
    assert [x][1..] == [];
  }

  lemma RanOneMore(h: Handler, queue: multiset<Item>, xs: seq<Item>, last: multiset<Item>, x: Item, now: int)
    requires Legal(h, queue, xs, now) && After(h, queue, xs) == last
    requires x in last && x.runAt <= now
    ensures Legal(h, queue, xs + [x], now) && After(h, queue, xs + [x]) == Exec(h, last, x)
  {
    OneIsLegal(h, last, x, now);
    RunsConcatenate(h, queue, xs, [x], now);
    hide Legal, After, Exec;
  }

  /** The executions since `earlier` were a legal run of what was then queued. */
  ghost predicate HasRun(h: Handler, jobs: seq<Job>, log: seq<Entry>, queue: multiset<Item>, earlier: seq<Entry>, now: int) {
    && |earlier| <= |log| && log[..|earlier|] == earlier
    && Legal(h, queue, Items(log[|earlier|..]), now)
    && Queue(jobs) == After(h, queue, Items(log[|earlier|..]))
  }

  /** Rows outside the batch stand as they were; rows may have been added. */
  predicate OthersStand(before: seq<Job>, jobs: seq<Job>, batch: seq<nat>) {
    |before| <= |jobs| && forall i :: 0 <= i < |before| && i !in batch ==> jobs[i] == before[i]
  }

  /** Halfway through a batch: `k` of its jobs have run. */
  ghost predicate InFlight(h: Handler, claimed: seq<Job>, jobs: seq<Job>, log: seq<Entry>, batch: seq<nat>, k: nat,
                           queue: multiset<Item>, earlier: seq<Entry>, now: int)
  {
    && Remaining(claimed, jobs, batch, k)
    && OthersStand(claimed, jobs, batch)
    && k <= |batch| && jobs == RunRows(h, claimed, batch[..k])
    && Attempts(jobs, log)
    && HasRun(h, jobs, log, queue, earlier, now)
    && (forall a :: 0 <= a < |batch| ==> batch[a] < |claimed|)
    && log[|earlier|..] == ClaimedEntries(claimed, batch[..k])
  }

  lemma InFlightNext(h: Handler, before: seq<Job>, claimed: seq<Job>, jobs: seq<Job>, log: seq<Entry>, after: seq<Job>,
                     batch: seq<nat>, k: nat, queue: multiset<Item>, earlier: seq<Entry>, leaseUntil: int, now: int)
    requires Claimed(before, claimed, batch, leaseUntil, now) && k < |batch|
    requires InFlight(h, claimed, jobs, log, batch, k, queue, earlier, now)
    requires batch[k] < |jobs| && Advanced(jobs, after, batch[k])
    requires claimed[batch[k]].AsItem() in Queue(jobs)
    requires Queue(after) == Exec(h, Queue(jobs), claimed[batch[k]].AsItem()) && after == RunRow(h, jobs, batch[k])
    ensures InFlight(h, claimed, after, log + [Entry(batch[k], claimed[batch[k]].AsItem())], batch, k + 1,
                     queue, earlier, now)
  {
    hide HasRun, Claimed, Advanced, Attempts, Remaining, Queue, Exec, ClaimedEntries, OthersStand, RunRow, RunRows;
    var id, x := batch[k], claimed[batch[k]].AsItem();
    RemainingHead(before, claimed, jobs, batch, k, leaseUntil, now);
    RemainingTail(before, claimed, jobs, after, batch, k, leaseUntil, now);
    OthersStillStand(claimed, jobs, after, batch, id);
    AttemptMade(jobs, after, id, log, x);
    HasRunOneMore(h, jobs, log, after, id, x, queue, earlier, now);
    EntriesOfLonger(claimed, batch, k);
    OneMoreRun(h, claimed, batch, k);
    assert (log + [Entry(id, x)])[|earlier|..] == log[|earlier|..] + [Entry(id, x)];
  }

  lemma OthersStillStand(claimed: seq<Job>, jobs: seq<Job>, after: seq<Job>, batch: seq<nat>, id: nat)
    requires OthersStand(claimed, jobs, batch) && id in batch && id < |jobs| && Advanced(jobs, after, id)
    ensures OthersStand(claimed, after, batch)
  {
  }

  lemma HasRunOneMore(h: Handler, jobs: seq<Job>, log: seq<Entry>, after: seq<Job>, id: nat, x: Item,
                      queue: multiset<Item>, earlier: seq<Entry>, now: int)
    requires HasRun(h, jobs, log, queue, earlier, now)
    requires x in Queue(jobs) && x.runAt <= now && Queue(after) == Exec(h, Queue(jobs), x)
    ensures |earlier| <= |log|
    ensures HasRun(h, after, log + [Entry(id, x)], queue, earlier, now)
  {
    hide Queue, Exec, Legal, After, Items;
    RanOneMore(h, queue, Items(log[|earlier|..]), Queue(jobs), x, now);
    ItemsOfLonger(log[|earlier|..], id, x);
    assert (log + [Entry(id, x)])[|earlier|..] == log[|earlier|..] + [Entry(id, x)];
  }

  lemma ItemsOfLonger(log: seq<Entry>, id: nat, x: Item)
    ensures Items(log + [Entry(id, x)]) == Items(log) + [x]
  {
  }

  lemma EntriesOfLonger(claimed: seq<Job>, batch: seq<nat>, k: nat)
    requires k < |batch| && forall a :: 0 <= a < |batch| ==> batch[a] < |claimed|
    ensures ClaimedEntries(claimed, batch[..k + 1]) ==
            ClaimedEntries(claimed, batch[..k]) + [Entry(batch[k], claimed[batch[k]].AsItem())]
  {
  }

  lemma NothingRun(h: Handler, jobs: seq<Job>, log: seq<Entry>, now: int)
    ensures HasRun(h, jobs, log, Queue(jobs), log, now)
  {
    assert log[|log|..] == [];
  }

  /** A legal run followed by a legal run is one. */
  lemma HasRunTwice(h: Handler, between: seq<Job>, ran: seq<Entry>, jobs: seq<Job>, log: seq<Entry>,
                    queue: multiset<Item>, earlier: seq<Entry>, now: int)
    requires HasRun(h, between, ran, queue, earlier, now)
    requires HasRun(h, jobs, log, Queue(between), ran, now)
    ensures HasRun(h, jobs, log, queue, earlier, now)
  {
    hide Queue, Legal, After, Items;
    var first, second := ran[|earlier|..], log[|ran|..];
    assert log == ran + second;
    assert log[|earlier|..] == first + second;
    assert log[..|earlier|] == ran[..|earlier|];
    ItemsAppend(first, second);
    RunsConcatenate(h, queue, Items(first), Items(second), now);
  }

  /** Two drains of one queue to one instant run the same jobs, whatever their batch sizes, rounds and earlier logs. */
  lemma DrainsAgreeWhateverTheBatch(h: Handler, jobsA: seq<Job>, logA: seq<Entry>, earlierA: seq<Entry>,
                                    jobsB: seq<Job>, logB: seq<Entry>, earlierB: seq<Entry>,
                                    queue: multiset<Item>, now: int)
    requires HasRun(h, jobsA, logA, queue, earlierA, now) && Quiet(Queue(jobsA), now)
    requires HasRun(h, jobsB, logB, queue, earlierB, now) && Quiet(Queue(jobsB), now)
    ensures |earlierA| <= |logA| && |earlierB| <= |logB|
    ensures multiset(Items(logA[|earlierA|..])) == multiset(Items(logB[|earlierB|..]))
    ensures Queue(jobsA) == Queue(jobsB)
  {
    DrainsAgree(h, queue, Items(logA[|earlierA|..]), Items(logB[|earlierB|..]), now);
  }

  lemma HasRunByThen(h: Handler, jobs: seq<Job>, log: seq<Entry>, queue: multiset<Item>, earlier: seq<Entry>,
                     early: int, late: int)
    requires HasRun(h, jobs, log, queue, earlier, early) && early <= late
    ensures HasRun(h, jobs, log, queue, earlier, late)
  {
    LaterIsLegalToo(h, queue, Items(log[|earlier|..]), early, late);
  }

  /**
   * Two schedulers with the same jobs waiting: one is advanced to `late` in two calls, drained or not at `early`
   * in between, the other in one. They execute the same jobs at the same instants and leave the same queue.
   */
  lemma TwoAdvancesAgreeWithOne(h: Handler, between: seq<Job>, ran: seq<Entry>,
                                jobsA: seq<Job>, logA: seq<Entry>, earlierA: seq<Entry>,
                                jobsB: seq<Job>, logB: seq<Entry>, earlierB: seq<Entry>,
                                queue: multiset<Item>, early: int, late: int)
    requires early <= late && HasRun(h, between, ran, queue, earlierA, early)
    requires HasRun(h, jobsA, logA, Queue(between), ran, late) && Quiet(Queue(jobsA), late)
    requires HasRun(h, jobsB, logB, queue, earlierB, late) && Quiet(Queue(jobsB), late)
    ensures |earlierA| <= |logA| && |earlierB| <= |logB|
    ensures multiset(Items(logA[|earlierA|..])) == multiset(Items(logB[|earlierB|..]))
    ensures Queue(jobsA) == Queue(jobsB)
  {
    HasRunByThen(h, between, ran, queue, earlierA, early, late);
    HasRunTwice(h, between, ran, jobsA, logA, queue, earlierA, late);
    DrainsAgreeWhateverTheBatch(h, jobsA, logA, earlierA, jobsB, logB, earlierB, queue, late);
  }

  /* ---------------------------- rounds of a drain ---------------------------- */

  /** What one batch did: it took the earliest due rows, in order, and left the others alone. */
  predicate RanBatch(before: seq<Job>, after: seq<Job>, batch: seq<nat>, now: int) {
    && OthersStand(before, after, batch)
    && (forall a :: 0 <= a < |batch| ==> batch[a] < |before| && IsDue(before[batch[a]], now))
    && (forall a, b :: 0 <= a < b < |batch| ==> Before(before, batch[a], batch[b]))
    && (forall a, j :: 0 <= a < |batch| && 0 <= j < |before| && j !in batch && IsDue(before[j], now) ==>
          Before(before, batch[a], j))
  }

  lemma ClaimedBatchRan(h: Handler, before: seq<Job>, claimed: seq<Job>, after: seq<Job>, batch: seq<nat>,
                        leaseUntil: int, now: int)
    requires Claimed(before, claimed, batch, leaseUntil, now)
    requires OthersStand(claimed, after, batch) && after == RunRows(h, claimed, batch)
    ensures RanBatch(before, after, batch, now) && after == RunRows(h, before, batch)
    ensures ClaimedEntries(claimed, batch) == ClaimedEntries(before, batch)
  {
    hide RunRows;
    ClaimedRunsAlike(h, before, claimed, batch, leaseUntil, now);
    forall a | 0 <= a < |batch| ensures claimed[batch[a]].AsItem() == before[batch[a]].AsItem() {
      assert batch[a] in batch;
    }
  }

  lemma ClaimedRunsAlike(h: Handler, before: seq<Job>, claimed: seq<Job>, batch: seq<nat>, leaseUntil: int, now: int)
    requires Claimed(before, claimed, batch, leaseUntil, now)
    ensures RunRows(h, claimed, batch) == RunRows(h, before, batch)
  {
    assert Distinct(batch) by {
      forall a, b | 0 <= a < b < |batch| ensures batch[a] != batch[b] { assert Before(before, batch[a], batch[b]); }
    }
    hide RunRows;
    LeasesDoNotMatter(h, before, claimed, batch, |batch|);
    assert batch[..|batch|] == batch && batch[|batch|..] == [];
  }

  /** Due after another entry, or at the same instant and enqueued after it. */
  predicate Follows(e: Entry, earlier: Entry) {
    earlier.item.runAt < e.item.runAt || (earlier.item.runAt == e.item.runAt && earlier.id < e.id)
  }

  lemma BatchInOrder(before: seq<Job>, after: seq<Job>, batch: seq<nat>, now: int)
    requires RanBatch(before, after, batch, now)
    ensures InOrder(ClaimedEntries(before, batch))
  {
    assert forall a, b :: 0 <= a < b < |batch| ==> Before(before, batch[a], batch[b]);
  }

  /** The last execution of a batch. */
  function LastOf(before: seq<Job>, batch: seq<nat>): Entry
    requires batch != [] && batch[|batch| - 1] < |before|
  {
    Entry(batch[|batch| - 1], before[batch[|batch| - 1]].AsItem())
  }

  /** One round of a drain: a batch, and the table before and after it. */
  datatype Round = Round(before: seq<Job>, batch: seq<nat>, after: seq<Job>) {
    predicate Ran(h: Handler, size: nat, now: int) {
      && 0 < |batch| <= size
      && RanBatch(before, after, batch, now) && after == RunRows(h, before, batch)
    }

    predicate Known() { forall a :: 0 <= a < |batch| ==> batch[a] < |before| }

    /** What the round executed, in order. */
    function Entries(): seq<Entry> { if Known() then ClaimedEntries(before, batch) else [] }
  }

  /** Rounds that follow one another. */
  predicate Rounds(rounds: seq<Round>, h: Handler, size: nat, now: int) {
    rounds != [] ==>
      var n := |rounds| - 1;
      && Rounds(rounds[..n], h, size, now) && rounds[n].Ran(h, size, now)
      && (n > 0 ==> rounds[n].before == rounds[n - 1].after)
  }

  /** From one table to another. */
  predicate Spans(rounds: seq<Round>, start: seq<Job>, end: seq<Job>) {
    if rounds == [] then end == start else rounds[0].before == start && rounds[|rounds| - 1].after == end
  }

  function Executed(rounds: seq<Round>): seq<Entry> {
    if rounds == [] then [] else Executed(rounds[..|rounds| - 1]) + rounds[|rounds| - 1].Entries()
  }

  lemma ExecutedMore(rounds: seq<Round>, r: Round)
    ensures Executed(rounds + [r]) == Executed(rounds) + r.Entries()
  {
    assert (rounds + [r])[..|rounds|] == rounds;
  }

  lemma RoundRan(r: Round, h: Handler, size: nat, now: int)
    requires r.Ran(h, size, now)
    ensures r.Known() && r.Entries() == ClaimedEntries(r.before, r.batch) != [] && InOrder(r.Entries())
    ensures r.Entries()[|r.Entries()| - 1] == LastOf(r.before, r.batch)
  {
    hide RunRows;
    BatchInOrder(r.before, r.after, r.batch, now);
  }

  lemma OneMoreRound(rounds: seq<Round>, r: Round, h: Handler, size: nat, now: int,
                     earlier: seq<Entry>, ran: seq<Entry>, log: seq<Entry>)
    requires Rounds(rounds, h, size, now) && (rounds != [] ==> rounds[|rounds| - 1].after == r.before)
    requires r.Ran(h, size, now)
    requires ran == earlier + Executed(rounds) && |ran| <= |log| && log[..|ran|] == ran
    requires log[|ran|..] == ClaimedEntries(r.before, r.batch)
    ensures Rounds(rounds + [r], h, size, now) && log == earlier + Executed(rounds + [r])
  {
    hide Round.Ran, RanBatch, ClaimedEntries, InOrder, Executed;
    RoundRan(r, h, size, now);
    assert (rounds + [r])[..|rounds|] == rounds;
    ExecutedMore(rounds, r);
    Joined(earlier, Executed(rounds), r.Entries(), ran, log);
  }

  /** Partway through a drain. */
  ghost predicate Drained(h: Handler, size: nat, start: seq<Job>, jobs: seq<Job>, log: seq<Entry>, earlier: seq<Entry>,
                          rounds: seq<Round>, now: int)
  {
    && HasRun(h, jobs, log, Queue(start), earlier, now)
    && Rounds(rounds, h, size, now) && log == earlier + Executed(rounds)
    && Spans(rounds, start, jobs)
  }

  lemma NothingDrained(h: Handler, size: nat, jobs: seq<Job>, log: seq<Entry>, now: int)
    ensures Drained(h, size, jobs, jobs, log, log, [], now)
  {
    NothingRun(h, jobs, log, now);
    assert log == log + Executed([]);
  }

  lemma SpansMore(rounds: seq<Round>, r: Round, start: seq<Job>)
    requires Spans(rounds, start, r.before)
    ensures Spans(rounds + [r], start, r.after)
    ensures rounds != [] ==> rounds[|rounds| - 1].after == r.before
  {
  }

  lemma DrainedMore(h: Handler, size: nat, start: seq<Job>, between: seq<Job>, ran: seq<Entry>, jobs: seq<Job>,
                    log: seq<Entry>, batch: seq<nat>, earlier: seq<Entry>, rounds: seq<Round>, now: int)
    requires Drained(h, size, start, between, ran, earlier, rounds, now)
    requires HasRun(h, jobs, log, Queue(between), ran, now)
    requires Round(between, batch, jobs).Ran(h, size, now) && log[|ran|..] == ClaimedEntries(between, batch)
    ensures Drained(h, size, start, jobs, log, earlier, rounds + [Round(between, batch, jobs)], now)
  {
    assert |ran| <= |log| && log[..|ran|] == ran;
    hide HasRun, Queue, Round.Ran, RunRows, RanBatch, ClaimedEntries, Rounds, Executed, Spans;
    SpansMore(rounds, Round(between, batch, jobs), start);
    HasRunTwice(h, between, ran, jobs, log, Queue(start), earlier, now);
    OneMoreRound(rounds, Round(between, batch, jobs), h, size, now, earlier, ran, log);
  }

  /** A last tick that found nothing to run. */
  lemma DrainedEnds(h: Handler, size: nat, start: seq<Job>, jobs: seq<Job>, ran: seq<Entry>, log: seq<Entry>,
                    earlier: seq<Entry>, rounds: seq<Round>, now: int)
    requires Drained(h, size, start, jobs, ran, earlier, rounds, now)
    requires HasRun(h, jobs, log, Queue(jobs), ran, now) && |log| == |ran|
    ensures Drained(h, size, start, jobs, log, earlier, rounds, now)
  {
    assert log == log[..|ran|] == ran;
  }

  lemma Joined<T>(a: seq<T>, b: seq<T>, c: seq<T>, ab: seq<T>, abc: seq<T>)
    requires ab == a + b && |ab| <= |abc| && abc[..|ab|] == ab && abc[|ab|..] == c
    ensures abc == a + (b + c)
  {
    assert abc == abc[..|ab|] + abc[|ab|..];
  }

  lemma BatchStarts(h: Handler, before: seq<Job>, claimed: seq<Job>, log: seq<Entry>, batch: seq<nat>, leaseUntil: int, now: int)
    requires Claimed(before, claimed, batch, leaseUntil, now) && NoneLeased(before) && Attempts(before, log)
    ensures InFlight(h, claimed, claimed, log, batch, 0, Queue(claimed), log, now)
  {
    ClaimedKeepsAttempts(before, claimed, batch, leaseUntil, now, log);
    NothingRun(h, claimed, log, now);
    assert batch[0..] == batch;
  }

  lemma BatchEnds(h: Handler, claimed: seq<Job>, jobs: seq<Job>, log: seq<Entry>, batch: seq<nat>,
                  queue: multiset<Item>, earlier: seq<Entry>, now: int)
    requires InFlight(h, claimed, jobs, log, batch, |batch|, queue, earlier, now)
    ensures NoneLeased(jobs) && Attempts(jobs, log) && HasRun(h, jobs, log, queue, earlier, now)
    ensures log[|earlier|..] == ClaimedEntries(claimed, batch) && |log| == |earlier| + |batch|
    ensures OthersStand(claimed, jobs, batch) && jobs == RunRows(h, claimed, batch)
  {
    assert batch[|batch|..] == [] && batch[..|batch|] == batch;
  }

  class Scheduler {
    const clock: VirtualClock
    const handler: Handler
    const leaseMs: nat
    const batchSize: nat
    var jobs: seq<Job>
    /** Every execution so far, in order. */
    ghost var log: seq<Entry>

    constructor (clock: VirtualClock, handler: Handler, leaseMs: nat, batchSize: nat)
      requires clock.override == None
      ensures this.clock == clock && this.handler == handler && this.batchSize == batchSize
      ensures Valid() && jobs == [] && log == []
    {
      this.clock, this.handler, this.leaseMs, this.batchSize := clock, handler, leaseMs, batchSize;
      jobs, log := [], [];
    }

    ghost predicate Valid()
      reads this, clock
    {
      NoneLeased(jobs) && clock.override == None && Attempts(jobs, log)
    }

    /** The executions since an earlier log were a legal run of what was then queued. */
    ghost predicate Ran(before: multiset<Item>, earlier: seq<Entry>, now: int)
      reads this
    {
      HasRun(handler, jobs, log, before, earlier, now)
    }

    /* ---------------------------- the job repository ---------------------------- */

    method Enqueue(work: Work, maxAttempts: int, runAt: int)
      modifies this`jobs
      ensures jobs == old(jobs) + [Job(work, Ready, runAt, 0, maxAttempts, None)]
    {
      jobs := jobs + [Job(work, Ready, runAt, 0, maxAttempts, None)];
    }

    method ReclaimExpiredLeases(now: int)
      modifies this`jobs
      ensures |jobs| == |old(jobs)|
      ensures forall i :: 0 <= i < |jobs| ==>
                var was := old(jobs)[i];
                jobs[i] == if was.status == Leased && was.leaseExpiresAt.Some? && was.leaseExpiresAt.value < now
                           then was.(status := Ready, leaseExpiresAt := None) else was
    {
      for k := 0 to |jobs|
        invariant |jobs| == |old(jobs)|
        invariant forall i :: k <= i < |jobs| ==> jobs[i] == old(jobs)[i]
        invariant forall i :: 0 <= i < k ==>
                    var was := old(jobs)[i];
                    jobs[i] == if was.status == Leased && was.leaseExpiresAt.Some? && was.leaseExpiresAt.value < now
                               then was.(status := Ready, leaseExpiresAt := None) else was
      {
        var job := jobs[k];
        if job.status == Leased && job.leaseExpiresAt.Some? && job.leaseExpiresAt.value < now {
          jobs := jobs[k := job.(status := Ready, leaseExpiresAt := None)];
        }
      }
    }

    method EarliestDue(now: int) returns (best: Option<nat>)
      ensures best.None? <==> NoneDue(jobs, now)
      ensures best.Some? ==> best.value < |jobs| && IsDue(jobs[best.value], now)
      ensures best.Some? ==>
                forall i :: 0 <= i < |jobs| && i != best.value && IsDue(jobs[i], now) ==> Before(jobs, best.value, i)
    {
      best := None;
      for k := 0 to |jobs|
        invariant best.None? ==> forall i :: 0 <= i < k ==> !IsDue(jobs[i], now)
        invariant best.Some? ==> best.value < k && IsDue(jobs[best.value], now)
        invariant best.Some? ==>
                    forall i :: 0 <= i < k && i != best.value && IsDue(jobs[i], now) ==> Before(jobs, best.value, i)
      {
        if IsDue(jobs[k], now) && (best.None? || jobs[k].runAt < jobs[best.value].runAt) {
          best := Some(k);
        }
      }
    }

    /** Lease the earliest ready jobs that are due, at most `batchSize` of them, in order. */
    method ClaimDue(now: int, leaseUntil: int) returns (batch: seq<nat>)
      modifies this`jobs
      ensures |batch| <= batchSize
      ensures Claimed(old(jobs), jobs, batch, leaseUntil, now)
      ensures |batch| < batchSize ==> NoneDue(jobs, now)
      ensures Queue(jobs) == old(Queue(jobs))
    {
      batch := [];
      while |batch| < batchSize
        invariant |batch| <= batchSize
        invariant Claimed(old(jobs), jobs, batch, leaseUntil, now)
        invariant Queue(jobs) == old(Queue(jobs))
      {
        var best := EarliestDue(now);
        if best.None? { return; }
        var leased := jobs[best.value].(status := Leased, leaseExpiresAt := Some(leaseUntil));
        ClaimOneMore(old(jobs), jobs, batch, leaseUntil, now, best.value);
        QueueUpdate(jobs, best.value, leased);
        hide Claimed, Queue;
        jobs := jobs[best.value := leased];
        batch := batch + [best.value];
      }
    }

    /* ---------------------------- running a job ---------------------------- */

    method EnqueueAll(requests: seq<Request>)
      modifies this`jobs
      ensures jobs == old(jobs) + FreshRows(requests)
      ensures Queue(jobs) == old(Queue(jobs)) + FreshAll(requests)
    {
      hide FreshRows;
      for k := 0 to |requests|
        invariant jobs == old(jobs) + FreshRows(requests)[..k]
        invariant Queue(jobs) == old(Queue(jobs)) + FreshAll(requests[..k])
      {
        var r := requests[k];
        OneMoreFresh(old(jobs), jobs, requests, k);
        hide Queue, FreshRows, FreshAll;
        Enqueue(r.work, r.maxAttempts, r.runAt);
      }
      assert requests[..|requests|] == requests;
    }

    /** Give up, or put the job back for later. */
    method Retry(id: nat, job: Job, delayMs: int, wall: int)
      requires id < |jobs| && jobs[id] == job
      modifies this`jobs
      ensures jobs == old(jobs)[id := if job.attempt + 1 >= job.maxAttempts
                                      then job.(status := Failed, leaseExpiresAt := None)
                                      else job.(status := Ready, attempt := job.attempt + 1, leaseExpiresAt := None,
                                                runAt := clock.Now(wall) + (if delayMs > 0 then delayMs else 0))]
    {
      if job.attempt + 1 >= job.maxAttempts {
        jobs := jobs[id := job.(status := Failed, leaseExpiresAt := None)];
        return;
      }
      var runAt := clock.Now(wall) + (if delayMs > 0 then delayMs else 0);
      jobs := jobs[id := job.(status := Ready, attempt := job.attempt + 1, leaseExpiresAt := None, runAt := runAt)];
    }

    /** Complete, fail or reschedule the row, as the handler ended. */
    method Finish(id: nat, job: Job, ending: Ending, wall: int)
      requires id < |jobs| && jobs[id] == job && clock.override == Some(job.runAt)
      modifies this`jobs
      ensures jobs == old(jobs)[id := RowAfter(job, ending)]
    {
      match ending
      case RetryIn(ms) => Retry(id, job, ms, wall);
      case Throw => Retry(id, job, DefaultBackoffMs(job.attempt), wall);
      case Complete => jobs := jobs[id := job.(status := Done, leaseExpiresAt := None)];
      case Unhandled => jobs := jobs[id := job.(status := Failed, leaseExpiresAt := None)];
    }

    /** Call the handler at the instant the clock shows, and enqueue what it asks for. */
    method Handle(x: Item, wall: int) returns (reaction: Reaction)
      modifies this`jobs
      ensures reaction == handler(x, clock.Now(wall))
      ensures jobs == old(jobs) + FreshRows(Asked(reaction))
      ensures Queue(jobs) == old(Queue(jobs)) + FreshAll(Asked(reaction))
    {
      reaction := handler(x, clock.Now(wall));
      if !reaction.ending.Unhandled? {
        hide Queue;
        EnqueueAll(reaction.followUps);
      }
    }

    method RunJob(id: nat, job: Job, wall: int)
      requires id < |jobs| && jobs[id] == job && job.status == Leased
      requires clock.override == Some(job.runAt)
      modifies this`jobs, this`log
      ensures log == old(log) + [Entry(id, job.AsItem())]
      ensures job.AsItem() in old(Queue(jobs))
      ensures Queue(jobs) == Exec(handler, old(Queue(jobs)), job.AsItem())
      ensures Advanced(old(jobs), jobs, id) && jobs == RunRow(handler, old(jobs), id)
    {
      ghost var before := jobs;
      log := log + [Entry(id, job.AsItem())];
      var reaction := Handle(job.AsItem(), wall);
      JobHasRun(before, jobs, id, handler, reaction);
      hide Queue, Exec, Extends, RowAfter, Asked;
      Finish(id, job, reaction.ending, wall);
    }

    /* ---------------------------- ticks and drains ---------------------------- */

    /** One job of a claimed batch, with the clock showing the instant it was due. */
    method RunClaimed(claimed: seq<Job>, batch: seq<nat>, k: nat, wall: int, ghost before: seq<Job>,
                      ghost queue: multiset<Item>, ghost earlier: seq<Entry>, ghost leaseUntil: int, ghost now: int)
      requires Claimed(before, claimed, batch, leaseUntil, now) && k < |batch|
      requires InFlight(handler, claimed, jobs, log, batch, k, queue, earlier, now)
      requires clock.override == None
      modifies this`jobs, this`log, clock`override
      ensures InFlight(handler, claimed, jobs, log, batch, k + 1, queue, earlier, now)
      ensures clock.override == None
    {
      var id := batch[k];
      var job := claimed[id];
      RemainingHead(before, claimed, jobs, batch, k, leaseUntil, now);
      ghost var jobs', log' := jobs, log;
      hide InFlight, Claimed, Queue, Exec, Advanced, RunRow;
      clock.override := Some(job.runAt);
      RunJob(id, job, wall);
      clock.override := None;
      InFlightNext(handler, before, claimed, jobs', log', jobs, batch, k, queue, earlier, leaseUntil, now);
    }

    /** Run one batch of due jobs, each at its own instant. */
    method Tick(wall: int) returns (count: nat, ghost batch: seq<nat>)
      requires Valid()
      modifies this`jobs, this`log, clock`override
      ensures Valid()
      ensures Ran(old(Queue(jobs)), old(log), old(clock.Real(wall)))
      ensures count <= batchSize && |log| == |old(log)| + count == |old(log)| + |batch|
      ensures RanBatch(old(jobs), jobs, batch, old(clock.Real(wall))) && jobs == RunRows(handler, old(jobs), batch)
      ensures log[|old(log)|..] == ClaimedEntries(old(jobs), batch) && InOrder(log[|old(log)|..])
      ensures count == 0 && batchSize > 0 ==> NoneDue(jobs, old(clock.Real(wall)))
    {
      hide InFlight, Claimed, ClaimedEntries, InOrder, HasRun, Queue, Attempts, NoneDue, RanBatch, OthersStand, RunRows;
      var now := clock.Now(wall);
      var leaseUntil := clock.Now(wall) + leaseMs;
      ReclaimExpiredLeases(now);
      assert jobs == old(jobs);
      var leased := ClaimDue(now, leaseUntil);
      batch := leased;
      var claimed := jobs;
      BatchStarts(handler, old(jobs), claimed, log, leased, leaseUntil, now);
      for k := 0 to |leased|
        invariant clock.override == None
        invariant InFlight(handler, claimed, jobs, log, leased, k, Queue(claimed), old(log), now)
        invariant k == 0 ==> jobs == claimed
      {
        RunClaimed(claimed, leased, k, wall, old(jobs), Queue(claimed), old(log), leaseUntil, now);
      }
      ClaimedInOrder(old(jobs), claimed, leased, leaseUntil, now);
      BatchEnds(handler, claimed, jobs, log, leased, Queue(claimed), old(log), now);
      ClaimedBatchRan(handler, old(jobs), claimed, jobs, leased, leaseUntil, now);
      count := |leased|;
    }

    /** One tick of a drain, and what it adds to the drain's account. */
    method TickOfDrain(wall: int, ghost start: seq<Job>, ghost earlier: seq<Entry>, ghost rounds: seq<Round>, ghost now: int)
      returns (count: nat, ghost more: seq<Round>)
      requires Valid() && clock.Real(wall) == now
      requires Drained(handler, batchSize, start, jobs, log, earlier, rounds, now)
      modifies this`jobs, this`log, clock`override
      ensures Valid() && clock.Real(wall) == now && |log| == |old(log)| + count
      ensures Drained(handler, batchSize, start, jobs, log, earlier, more, now)
      ensures count == 0 && batchSize > 0 ==> NoneDue(jobs, now) && Quiet(Queue(jobs), now)
    {
      hide Queue, Attempts, HasRun, InOrder, NoneDue, Quiet, RanBatch, ClaimedEntries, Rounds, Executed, Drained, RunRow;
      ghost var ran, between, batch := log, jobs, [];
      count, batch := Tick(wall);
      if count == 0 {
        more := rounds;
        DrainedEnds(handler, batchSize, start, jobs, ran, log, earlier, rounds, now);
        if batchSize > 0 { NoneDueIsQuiet(jobs, now); }
      } else {
        more := rounds + [Round(between, batch, jobs)];
        DrainedMore(handler, batchSize, start, between, ran, jobs, log, batch, earlier, rounds, now);
      }
    }

    /** Run due jobs until none remain, or the bound is hit. */
    method Drain(wall: int, maxIterations: nat) returns (processed: nat, bounded: bool, ghost rounds: seq<Round>)
      requires Valid()
      modifies this`jobs, this`log, clock`override
      ensures Valid()
      ensures Ran(old(Queue(jobs)), old(log), old(clock.Real(wall)))
      ensures |log| == |old(log)| + processed
      ensures !bounded && batchSize > 0 ==>
                NoneDue(jobs, clock.Real(wall)) && Quiet(Queue(jobs), clock.Real(wall))
      ensures Rounds(rounds, handler, batchSize, old(clock.Real(wall))) && Spans(rounds, old(jobs), jobs)
      ensures log == old(log) + Executed(rounds)
    {
      processed := 0;
      bounded := true;
      rounds := [];
      hide Queue, Attempts, HasRun, NoneDue, Quiet, Rounds, Executed, Spans;
      ghost var now := clock.Real(wall);
      NothingDrained(handler, batchSize, jobs, log, now);
      for i := 0 to maxIterations
        invariant Valid() && clock.Real(wall) == now
        invariant Drained(handler, batchSize, old(jobs), jobs, log, old(log), rounds, now)
        invariant |log| == |old(log)| + processed
      {
        var count;
        count, rounds := TickOfDrain(wall, old(jobs), old(log), rounds, now);
        processed := processed + count;
        if count == 0 {
          bounded := false;
          return;
        }
      }
    }

    /** Move virtual time and run everything that has come due. */
    method AdvanceAndDrain(wall: int, ms: nat, maxIterations: nat) returns (processed: nat, bounded: bool)
      requires Valid()
      modifies this`jobs, this`log, clock
      ensures Valid() && clock.Real(wall) == old(clock.Real(wall)) + ms
      ensures Ran(old(Queue(jobs)), old(log), clock.Real(wall))
      ensures |log| == |old(log)| + processed
      ensures !bounded && batchSize > 0 ==> Quiet(Queue(jobs), clock.Real(wall))
    {
      var ok := clock.Advance(wall, ms);
      ghost var rounds;
      processed, bounded, rounds := Drain(wall, maxIterations);
    }
  }

  lemma JobHasRun(before: seq<Job>, queued: seq<Job>, id: nat, h: Handler, reaction: Reaction)
    requires id < |before| && before[id].status == Leased
    requires reaction == h(before[id].AsItem(), before[id].runAt)
    requires |before| <= |queued| && queued[..|before|] == before
    requires forall i :: |before| <= i < |queued| ==> queued[i].status == Ready && queued[i].attempt == 0
    requires Queue(queued) == Queue(before) + FreshAll(Asked(reaction))
    ensures before[id].AsItem() in Queue(before) && queued[id] == before[id]
    ensures var after := queued[id := RowAfter(before[id], reaction.ending)];
            && Queue(after) == Exec(h, Queue(before), before[id].AsItem())
            && Advanced(before, after, id)
  {
    hide Queue, Extends, RowAfter, Exec, QueuedAs, Asked, FreshAll;
    var job, row := before[id], RowAfter(before[id], reaction.ending);
    LeasedIsQueued(before, id);
    ExtendsByFresh(before, queued, id, row);
    QueueUpdate(queued, id, row);
    LeasedIsQueued(queued, id);
    RowAfterAdvances(job, reaction.ending);
    ExecAs(h, Queue(before), job.AsItem(), reaction, row);
  }

  lemma LeasedIsQueued(jobs: seq<Job>, id: nat)
    requires id < |jobs| && jobs[id].status == Leased
    ensures jobs[id].AsItem() in Queue(jobs) && QueuedAs(jobs[id]) == multiset{jobs[id].AsItem()}
  {
    QueueUpdate(jobs, id, jobs[id]);
    hide Queue;
  }

  lemma RowAfterAdvances(job: Job, ending: Ending)
    ensures var row := RowAfter(job, ending);
            && row.status != Leased && row.maxAttempts == job.maxAttempts
            && (if row.Waiting() then row.attempt == job.attempt + 1 < row.maxAttempts else row.attempt == job.attempt)
            && QueuedAs(row) ==
               (if Retries(job.AsItem(), ending) then multiset{NextAttempt(job.AsItem(), ending)} else multiset{})
  {
  }

  lemma AskedIsSpawned(h: Handler, x: Item)
    ensures var reaction := h(x, x.runAt);
            Successors(h, x) == FreshAll(Asked(reaction))
                                + if Retries(x, reaction.ending) then multiset{NextAttempt(x, reaction.ending)} else multiset{}
  {
    hide Retries, NextAttempt;
  }

  /** Follow-ups and the next attempt are together what `Exec` adds. */
  lemma ExecAs(h: Handler, queue: multiset<Item>, x: Item, reaction: Reaction, row: Job)
    requires x in queue && reaction == h(x, x.runAt)
    requires QueuedAs(row) ==
             if Retries(x, reaction.ending) then multiset{NextAttempt(x, reaction.ending)} else multiset{}
    ensures queue + FreshAll(Asked(reaction)) - multiset{x} + QueuedAs(row) == Exec(h, queue, x)
  {
    hide FreshAll, Retries, NextAttempt;
    AskedIsSpawned(h, x);
    MergeIn(queue, multiset{x}, FreshAll(Asked(reaction)), QueuedAs(row));
  }

  lemma MergeIn<T>(all: multiset<T>, out: multiset<T>, fresh_: multiset<T>, next: multiset<T>)
    requires out <= all
    ensures all + fresh_ - out + next == all - out + (fresh_ + next)
  {
  }
}
