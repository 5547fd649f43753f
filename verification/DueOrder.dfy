/** When a drain executes its jobs in the order they are due, and when that can be told before it. */
module DueOrder {
  import opened Options
  import opened JobRuns
  import opened Scheduler

  /* ---------------------------- from one batch to the next ---------------------------- */

  /** A row that the batch passed over comes after everything the batch ran. */
  lemma PassedOverFollows(before: seq<Job>, after: seq<Job>, batch: seq<nat>, j: nat, now: int)
    requires RanBatch(before, after, batch, now) && batch != []
    requires j < |before| && j !in batch && IsDue(after[j], now)
    ensures Follows(Entry(j, after[j].AsItem()), LastOf(before, batch))
  {
    assert after[j] == before[j];
    assert Before(before, batch[|batch| - 1], j);
  }

  lemma JoinedInOrder(first: seq<Entry>, second: seq<Entry>)
    requires first != [] && InOrder(second)
    ensures InOrder(first + second) <==> InOrder(first) && forall e <- second :: Follows(e, first[|first| - 1])
  {
    var both, last := first + second, first[|first| - 1];
    if InOrder(both) {
      forall a, b | 0 <= a < b < |first| ensures Follows(first[b], first[a]) {
        assert both[a] == first[a] && both[b] == first[b];
      }
      forall e | e in second ensures Follows(e, last) {
        var k :| 0 <= k < |second| && second[k] == e;
        assert both[|first| - 1] == last && both[|first| + k] == e;
      }
    }
    if InOrder(first) && forall e <- second :: Follows(e, last) {
      forall a, b | 0 <= a < b < |both| ensures Follows(both[b], both[a]) {
        if a < |first| <= b {
          assert both[b] in second && Follows(both[b], last);
          assert a < |first| - 1 ==> Follows(last, first[a]);
        }
      }
    }
  }

  /** Behind an execution in the queue: a fresh job, which has a later row, or the next attempt of row `id`. */
  predicate ComesBehind(y: Item, id: nat, last: Entry) {
    y.runAt > last.item.runAt || (y.runAt == last.item.runAt && (y.attempt == 0 || id > last.id))
  }

  predicate SuccessorsBehind(h: Handler, x: Item, id: nat, last: Entry) {
    forall y <- Successors(h, x) :: ComesBehind(y, id, last)
  }

  /** Everything a job of the batch asks for, follow-ups and its next attempt, comes behind the batch's last job. */
  predicate KeepsOrder(h: Handler, r: Round) {
    && r.batch != [] && r.Known()
    && forall a :: 0 <= a < |r.batch| ==>
         SuccessorsBehind(h, r.before[r.batch[a]].AsItem(), r.batch[a], LastOf(r.before, r.batch))
  }

  lemma {:induction false} InFreshAll(requests: seq<Request>, y: Item)
    ensures y in FreshAll(requests) <==> exists k :: 0 <= k < |requests| && Fresh(requests[k]) == y
  {
    hide Fresh;
    if requests != [] {
      var n := |requests| - 1;
      InFreshAll(requests[..n], y);
      assert y in FreshAll(requests) <==> y in FreshAll(requests[..n]) || y == Fresh(requests[n]);
      hide FreshAll;
      assert forall k :: 0 <= k < n ==> requests[..n][k] == requests[k];
    }
  }

  /** The fresh rows of one run, and its own row if it waits again. */
  predicate RowsFollow(table: seq<Job>, after: seq<Job>, id: nat, last: Entry)
    requires id < |table| <= |after|
  {
    && (after[id].status == Ready ==> Follows(Entry(id, after[id].AsItem()), last))
    && (forall j :: |table| <= j < |after| ==> Follows(Entry(j, after[j].AsItem()), last))
  }

  lemma RowsFollowExactlyWhen(h: Handler, table: seq<Job>, id: nat, last: Entry)
    requires id < |table| && last.id < |table|
    ensures |table| <= |RunRow(h, table, id)|
    ensures RowsFollow(table, RunRow(h, table, id), id, last) <==> SuccessorsBehind(h, table[id].AsItem(), id, last)
  {
    var x, after := table[id].AsItem(), RunRow(h, table, id);
    var reaction := h(x, x.runAt);
    var asked := Asked(reaction);
    AskedIsSpawned(h, x);
    FreshRowsFollowExactlyWhen(table, after, asked, id, last);
    NextAttemptFollowsExactlyWhen(table[id], reaction.ending, id, last);
    assert after[id] == RowAfter(table[id], reaction.ending);
    hide Successors, RunRow, RowAfter, FreshAll, ComesBehind, Follows, Asked, Retries, NextAttempt;
  }

  lemma FreshRowsFollowExactlyWhen(table: seq<Job>, after: seq<Job>, asked: seq<Request>, id: nat, last: Entry)
    requires id < |table| && last.id < |table| && |after| == |table| + |asked|
    requires forall j :: |table| <= j < |after| ==> after[j] == FreshRow(asked[j - |table|])
    ensures (forall j :: |table| <= j < |after| ==> Follows(Entry(j, after[j].AsItem()), last))
            <==> forall y <- FreshAll(asked) :: ComesBehind(y, id, last)
  {
    hide FreshAll;
    forall y | y in FreshAll(asked) ensures exists j :: |table| <= j < |after| && after[j].AsItem() == y {
      InFreshAll(asked, y);
      var k :| 0 <= k < |asked| && Fresh(asked[k]) == y;
      assert after[|table| + k].AsItem() == y;
    }
    forall j | |table| <= j < |after| ensures after[j].AsItem() in FreshAll(asked) && after[j].attempt == 0 {
      InFreshAll(asked, Fresh(asked[j - |table|]));
    }
    hide FreshRow;
  }

  lemma NextAttemptFollowsExactlyWhen(job: Job, ending: Ending, id: nat, last: Entry)
    ensures var row, x := RowAfter(job, ending), job.AsItem();
            (row.status == Ready ==> Follows(Entry(id, row.AsItem()), last))
            <==> (Retries(x, ending) ==> ComesBehind(NextAttempt(x, ending), id, last))
  {
    hide RetryDelay;
  }

  /** Rows a batch has put into the queue so far, fresh or to be tried again, come after an execution. */
  predicate NewRowsFollow(before: seq<Job>, table: seq<Job>, batch: seq<nat>, last: Entry) {
    forall j :: 0 <= j < |table| && table[j].status == Ready && (j >= |before| || j in batch) ==>
      Follows(Entry(j, table[j].AsItem()), last)
  }

  lemma {:induction false} NewRowsFollowExactlyWhen(h: Handler, before: seq<Job>, batch: seq<nat>, k: nat, last: Entry)
    requires Distinct(batch) && k <= |batch| && last.id < |before|
    requires forall a :: 0 <= a < |batch| ==> batch[a] < |before|
    ensures var table := RunRows(h, before, batch[..k]);
            && (forall j :: |before| <= j < |table| ==> table[j].status == Ready)
            && (NewRowsFollow(before, table, batch[..k], last) <==>
                forall a :: 0 <= a < k ==> SuccessorsBehind(h, before[batch[a]].AsItem(), batch[a], last))
  {
    hide SuccessorsBehind, Follows, RunRow;
    if k == 0 {
      assert batch[..0] == [];
    } else {
      var id := batch[k - 1];
      assert id !in batch[..k - 1];
      NewRowsFollowExactlyWhen(h, before, batch, k - 1, last);
      RunRowsElsewhere(h, before, batch, k - 1);
      OneMoreRun(h, before, batch, k - 1);
      var table := RunRows(h, before, batch[..k - 1]);
      RowsFollowExactlyWhen(h, table, id, last);
      assert batch[..k] == batch[..k - 1] + [id];
      hide RunRows;
      OneRowMore(h, before, table, batch[..k - 1], id, last);
    }
  }

  lemma OneRowMore(h: Handler, before: seq<Job>, table: seq<Job>, batch: seq<nat>, id: nat, last: Entry)
    requires id < |before| <= |table| && id !in batch
    requires forall j :: |before| <= j < |table| ==> table[j].status == Ready
    ensures var after := RunRow(h, table, id);
            && |table| <= |after|
            && (forall j :: |before| <= j < |after| ==> after[j].status == Ready)
            && (NewRowsFollow(before, after, batch + [id], last) <==>
                NewRowsFollow(before, table, batch, last) && RowsFollow(table, after, id, last))
  {
    var after := RunRow(h, table, id);
    assert forall j :: 0 <= j < |table| && j != id ==> after[j] == table[j];
    assert forall j :: |table| <= j < |after| ==> after[j].status == Ready;
    hide RunRow, Follows, Asked, FreshRows, RowAfter;
    assert forall j: nat :: j in batch + [id] <==> j in batch || j == id;
  }

  lemma RoundIds(r: Round, h: Handler, size: nat, now: int)
    requires r.Ran(h, size, now)
    ensures Distinct(r.batch) && forall a :: 0 <= a < |r.batch| ==> r.batch[a] < |r.before|
  {
    hide RunRows;
    forall a, b | 0 <= a < b < |r.batch| ensures r.batch[a] != r.batch[b] { assert Before(r.before, r.batch[a], r.batch[b]); }
  }

  lemma KeepsOrderExactlyWhen(h: Handler, r: Round, size: nat, now: int)
    requires r.Ran(h, size, now)
    ensures r.Known() && (KeepsOrder(h, r) <==> NewRowsFollow(r.before, r.after, r.batch, LastOf(r.before, r.batch)))
  {
    RoundRan(r, h, size, now);
    RoundIds(r, h, size, now);
    hide RanBatch, InOrder, ClaimedEntries, RunRows, SuccessorsBehind, Follows;
    assert r.batch[..|r.batch|] == r.batch;
    NewRowsFollowExactlyWhen(h, r.before, r.batch, |r.batch|, LastOf(r.before, r.batch));
  }

  /** The next round comes after this one exactly when this one keeps order: what comes next does not matter. */
  lemma RoundFollowsExactlyWhen(h: Handler, r: Round, next: Round, size: nat, now: int)
    requires r.Ran(h, size, now) && next.Ran(h, size, now) && next.before == r.after
    ensures r.Entries() != []
    ensures (forall e <- next.Entries() :: Follows(e, r.Entries()[|r.Entries()| - 1])) <==> KeepsOrder(h, r)
  {
    RoundRan(r, h, size, now);
    RoundRan(next, h, size, now);
    KeepsOrderExactlyWhen(h, r, size, now);
    EntriesFollow(next.before, next.batch, LastOf(r.before, r.batch));
    hide RunRows, KeepsOrder, ClaimedEntries, InOrder;
    NextFollowsExactlyWhen(r.before, r.after, r.batch, next.after, next.batch, now);
  }

  lemma NextFollowsExactlyWhen(before: seq<Job>, after: seq<Job>, batch: seq<nat>, later: seq<Job>, next: seq<nat>, now: int)
    requires RanBatch(before, after, batch, now) && RanBatch(after, later, next, now) && batch != [] && next != []
    ensures (forall j <- next :: j < |after| && Follows(Entry(j, after[j].AsItem()), LastOf(before, batch)))
            <==> NewRowsFollow(before, after, batch, LastOf(before, batch))
  {
    var last := LastOf(before, batch);
    if NewRowsFollow(before, after, batch, last) {
      forall j | j in next ensures j < |after| && Follows(Entry(j, after[j].AsItem()), last) {
        var b :| 0 <= b < |next| && next[b] == j;
        if j < |before| && j !in batch { PassedOverFollows(before, after, batch, j, now); }
      }
    }
    if forall j <- next :: j < |after| && Follows(Entry(j, after[j].AsItem()), last) {
      forall j | 0 <= j < |after| && after[j].status == Ready && (j >= |before| || j in batch)
        ensures Follows(Entry(j, after[j].AsItem()), last)
      {
        if IsDue(after[j], now) && j !in next { assert next[0] in next && Before(after, next[0], j); }
        assert IsDue(before[batch[|batch| - 1]], now);
      }
    }
  }

  /** Every round but the last keeps order. */
  predicate AllKeepOrder(h: Handler, rounds: seq<Round>) {
    |rounds| > 1 ==>
      var n := |rounds| - 1;
      AllKeepOrder(h, rounds[..n]) && KeepsOrder(h, rounds[n - 1])
  }

  lemma LastExecuted(rounds: seq<Round>, h: Handler, size: nat, now: int)
    requires Rounds(rounds, h, size, now) && rounds != []
    ensures var log, last := Executed(rounds), rounds[|rounds| - 1].Entries();
            log != [] && last != [] && log[|log| - 1] == last[|last| - 1]
  {
    hide Round.Ran, InOrder;
    RoundRan(rounds[|rounds| - 1], h, size, now);
  }

  /**
   * A whole drain executes in due order exactly when every batch but its last keeps order: a condition on the rows
   * claimed and on the handler.
   */
  lemma {:induction false} DrainInOrderExactlyWhen(h: Handler, rounds: seq<Round>, size: nat, now: int)
    requires Rounds(rounds, h, size, now)
    ensures InOrder(Executed(rounds)) <==> AllKeepOrder(h, rounds)
  {
    hide Round.Ran, InOrder, ClaimedEntries, Follows, KeepsOrder, Round.Entries;
    if rounds == [] {
      NothingInOrder();
    } else if |rounds| == 1 {
      OneRoundInOrder(rounds[0], h, size, now);
      assert rounds == [rounds[0]];
    } else {
      var n := |rounds| - 1;
      DrainInOrderExactlyWhen(h, rounds[..n], size, now);
      LastRoundInOrderExactlyWhen(h, rounds, size, now);
    }
  }

  lemma LastRoundInOrderExactlyWhen(h: Handler, rounds: seq<Round>, size: nat, now: int)
    requires Rounds(rounds, h, size, now) && |rounds| > 1
    ensures InOrder(Executed(rounds)) <==>
            InOrder(Executed(rounds[..|rounds| - 1])) && KeepsOrder(h, rounds[|rounds| - 2])
  {
    hide Round.Ran, InOrder, ClaimedEntries, Follows, KeepsOrder, Round.Entries;
    var n := |rounds| - 1;
    RoundRan(rounds[n], h, size, now);
    LastExecuted(rounds[..n], h, size, now);
    assert rounds[..n][n - 1] == rounds[n - 1] && rounds[n - 1].Ran(h, size, now);
    RoundFollowsExactlyWhen(h, rounds[n - 1], rounds[n], size, now);
    JoinedInOrder(Executed(rounds[..n]), rounds[n].Entries());
  }

  lemma OneRoundInOrder(r: Round, h: Handler, size: nat, now: int)
    requires r.Ran(h, size, now)
    ensures InOrder(Executed([r]))
  {
    hide Round.Ran, InOrder;
    RoundRan(r, h, size, now);
    assert [r][..0] == [] && [] + r.Entries() == r.Entries();
  }

  lemma NothingInOrder()
    ensures InOrder([])
  {
  }

  lemma EntriesFollow(jobs: seq<Job>, batch: seq<nat>, last: Entry)
    requires forall a :: 0 <= a < |batch| ==> batch[a] < |jobs|
    ensures (forall e <- ClaimedEntries(jobs, batch) :: Follows(e, last))
            <==> (forall j <- batch :: j < |jobs| && Follows(Entry(j, jobs[j].AsItem()), last))
  {
    hide Follows;
    var entries := ClaimedEntries(jobs, batch);
    forall b | 0 <= b < |batch| ensures entries[b] == Entry(batch[b], jobs[batch[b]].AsItem()) && entries[b] in entries {}
  }

  /* ---------------------------- due order, known beforehand ---------------------------- */

  /** A round that leaves nothing due keeps order. */
  lemma QuietKeepsOrder(h: Handler, r: Round, size: nat, now: int)
    requires r.Ran(h, size, now) && NoneDue(r.after, now)
    ensures KeepsOrder(h, r)
  {
    KeepsOrderExactlyWhen(h, r, size, now);
    hide RunRows, KeepsOrder;
    assert IsDue(r.before[r.batch[|r.batch| - 1]], now);
    assert forall j :: 0 <= j < |r.after| ==> r.after[j] in r.after;
  }

  lemma {:induction false} LastMayBeLeftOut(h: Handler, rounds: seq<Round>)
    requires rounds != [] ==> KeepsOrder(h, rounds[|rounds| - 1])
    ensures AllKeepOrder(h, rounds) <==> forall r <- rounds :: KeepsOrder(h, r)
  {
    hide KeepsOrder;
    if |rounds| > 1 {
      var n := |rounds| - 1;
      assert rounds == rounds[..n] + [rounds[n]];
      if KeepsOrder(h, rounds[n - 1]) { LastMayBeLeftOut(h, rounds[..n]); }
    }
  }

  lemma CompleteDrainInOrderExactlyWhen(h: Handler, rounds: seq<Round>, size: nat, now: int)
    requires Rounds(rounds, h, size, now) && (rounds != [] ==> NoneDue(rounds[|rounds| - 1].after, now))
    ensures InOrder(Executed(rounds)) <==> forall r <- rounds :: KeepsOrder(h, r)
  {
    hide Round.Ran, KeepsOrder, InOrder, Executed, NoneDue, AllKeepOrder;
    DrainInOrderExactlyWhen(h, rounds, size, now);
    if rounds != [] { QuietKeepsOrder(h, rounds[|rounds| - 1], size, now); }
    LastMayBeLeftOut(h, rounds);
  }

  /** A job's follow-ups are due no earlier than the job, and its next attempt later. */
  predicate StaysBehind(h: Handler, x: Item) {
    forall y <- Successors(h, x) :: y.runAt > x.runAt || (y.runAt == x.runAt && y.attempt == 0)
  }

  lemma AloneKeepsOrderExactlyWhen(h: Handler, r: Round, now: int)
    requires r.Ran(h, 1, now)
    ensures r.Known() && r.batch != [] && (KeepsOrder(h, r) <==> StaysBehind(h, r.before[r.batch[0]].AsItem()))
    ensures r.Entries() == [Entry(r.batch[0], r.before[r.batch[0]].AsItem())]
  {
    RoundRan(r, h, 1, now);
    hide Successors, RunRows, RanBatch, InOrder;
  }

  lemma {:induction false} OneByOne(h: Handler, rounds: seq<Round>, now: int)
    requires Rounds(rounds, h, 1, now)
    ensures (forall r <- rounds :: KeepsOrder(h, r)) <==> (forall x <- Items(Executed(rounds)) :: StaysBehind(h, x))
  {
    hide Round.Ran, KeepsOrder, StaysBehind, Round.Entries;
    if rounds != [] {
      var n := |rounds| - 1;
      OneByOne(h, rounds[..n], now);
      AloneKeepsOrderExactlyWhen(h, rounds[n], now);
      var x := rounds[n].before[rounds[n].batch[0]].AsItem();
      ItemsOfLonger(Executed(rounds[..n]), rounds[n].batch[0], x);
      assert rounds == rounds[..n] + [rounds[n]];
      hide Items, Executed;
    }
  }

  /**
   * One job at a time: a drain that ends executes in due order exactly when every job that the queue and the handler
   * lead to by the instant stays behind, which can be told before the drain.
   */
  lemma OneAtATimeInOrderExactlyWhen(h: Handler, queue: multiset<Item>, jobs: seq<Job>, log: seq<Entry>,
                                     earlier: seq<Entry>, rounds: seq<Round>, now: int)
    requires HasRun(h, jobs, log, queue, earlier, now) && log == earlier + Executed(rounds)
    requires NoneDue(jobs, now) && Quiet(Queue(jobs), now)
    requires Rounds(rounds, h, 1, now) && (rounds != [] ==> rounds[|rounds| - 1].after == jobs)
    ensures InOrder(Executed(rounds)) <==>
            forall x :: DueReachable(h, queue, x, now) ==> StaysBehind(h, x)
  {
    hide InOrder, Executed, StaysBehind, Rounds, NoneDue, KeepsOrder, HasRun, Quiet, Items, Queue, DueReachable;
    CompleteDrainInOrderExactlyWhen(h, rounds, 1, now);
    OneByOne(h, rounds, now);
    ExecutesTheDueReachable(h, queue, jobs, log, earlier, Executed(rounds), now);
  }

  lemma ExecutesTheDueReachable(h: Handler, queue: multiset<Item>, jobs: seq<Job>, log: seq<Entry>,
                                earlier: seq<Entry>, executed: seq<Entry>, now: int)
    requires HasRun(h, jobs, log, queue, earlier, now) && log == earlier + executed && Quiet(Queue(jobs), now)
    ensures forall x :: x in Items(executed) <==> DueReachable(h, queue, x, now)
  {
    assert log[|earlier|..] == executed;
    hide Legal, After, Quiet, Items, Queue, DueReachable;
    forall x ensures x in Items(executed) <==> DueReachable(h, queue, x, now) {
      RunsExactlyTheDueReachable(h, queue, Items(executed), x, now);
    }
  }

  /** The next attempt of a job is later than the one before. */
  ghost predicate Tireless(h: Handler) {
    forall x, y :: y in Successors(h, x) && y.attempt > 0 ==> y.runAt > x.runAt
  }

  /** So one job at a time, with a patient handler and no retry at once, is always in order. */
  lemma PatientOneAtATimeIsInOrder(h: Handler, rounds: seq<Round>, now: int)
    requires Patient(h) && Tireless(h) && Rounds(rounds, h, 1, now)
    ensures InOrder(Executed(rounds))
  {
    assert forall x :: StaysBehind(h, x);
    hide Round.Ran, KeepsOrder, InOrder, Executed, StaysBehind, Successors;
    OneByOne(h, rounds, now);
    AllInOrder(h, rounds, 1, now);
  }

  lemma {:induction false} AllInOrder(h: Handler, rounds: seq<Round>, size: nat, now: int)
    requires Rounds(rounds, h, size, now) && forall r <- rounds :: KeepsOrder(h, r)
    ensures AllKeepOrder(h, rounds) && InOrder(Executed(rounds))
  {
    hide Round.Ran, KeepsOrder, InOrder, Executed;
    DrainInOrderExactlyWhen(h, rounds, size, now);
    LastMayBeLeftOut(h, rounds);
  }

  /** Nothing that a due job of the queue asks for is due by the instant. */
  ghost predicate NothingNewComesDue(h: Handler, queue: multiset<Item>, now: int) {
    forall x <- queue :: x.runAt <= now ==> Quiet(Successors(h, x), now)
  }

  lemma {:induction false} OnlyTheQueuedRun(h: Handler, queue: multiset<Item>, xs: seq<Item>, now: int)
    requires NothingNewComesDue(h, queue, now) && Legal(h, queue, xs, now)
    ensures forall x <- xs :: x.runAt <= now && Quiet(Successors(h, x), now)
    decreases xs
  {
    hide Successors;
    if xs != [] {
      assert forall y <- Exec(h, queue, xs[0]) :: y in queue || y in Successors(h, xs[0]);
      hide Exec;
      OnlyTheQueuedRun(h, Exec(h, queue, xs[0]), xs[1..], now);
    }
  }

  lemma QuietSuccessorsKeepOrder(h: Handler, r: Round, size: nat, now: int)
    requires r.Ran(h, size, now)
    requires forall e <- r.Entries() :: e.item.runAt <= now && Quiet(Successors(h, e.item), now)
    ensures KeepsOrder(h, r)
  {
    RoundRan(r, h, size, now);
    hide Successors, RunRows, RanBatch, InOrder;
    forall a | 0 <= a < |r.batch|
      ensures SuccessorsBehind(h, r.before[r.batch[a]].AsItem(), r.batch[a], LastOf(r.before, r.batch))
    {
      assert r.Entries()[a] in r.Entries() && LastOf(r.before, r.batch) in r.Entries();
    }
  }

  lemma {:induction false} QuietRoundsKeepOrder(h: Handler, rounds: seq<Round>, size: nat, now: int)
    requires Rounds(rounds, h, size, now)
    requires forall e <- Executed(rounds) :: e.item.runAt <= now && Quiet(Successors(h, e.item), now)
    ensures forall r <- rounds :: KeepsOrder(h, r)
  {
    hide Round.Ran, KeepsOrder, Quiet, Successors, Round.Entries;
    if rounds != [] {
      var n := |rounds| - 1;
      QuietRoundsKeepOrder(h, rounds[..n], size, now);
      QuietSuccessorsKeepOrder(h, rounds[n], size, now);
      assert rounds == rounds[..n] + [rounds[n]];
    }
  }

  lemma ItemIsThere(log: seq<Entry>, e: Entry)
    requires e in log
    ensures e.item in Items(log)
  {
    var k :| 0 <= k < |log| && log[k] == e;
    assert Items(log)[k] == e.item;
  }

  /** When no follow-up and no retry comes due by the instant, every batch size gives due order. */
  lemma NothingNewIsInOrder(h: Handler, size: nat, queue: multiset<Item>, jobs: seq<Job>, log: seq<Entry>,
                            earlier: seq<Entry>, rounds: seq<Round>, now: int)
    requires NothingNewComesDue(h, queue, now)
    requires HasRun(h, jobs, log, queue, earlier, now) && log == earlier + Executed(rounds)
    requires Rounds(rounds, h, size, now)
    ensures InOrder(Executed(rounds))
  {
    assert log[|earlier|..] == Executed(rounds);
    hide Rounds, Executed, InOrder, KeepsOrder, Legal, After, Quiet, Queue, NothingNewComesDue, Successors;
    OnlyTheQueuedRun(h, queue, Items(Executed(rounds)), now);
    forall e | e in Executed(rounds) ensures e.item.runAt <= now && Quiet(Successors(h, e.item), now) {
      ItemIsThere(Executed(rounds), e);
    }
    QuietRoundsKeepOrder(h, rounds, size, now);
    AllInOrder(h, rounds, size, now);
  }

  /* ---------------------------- an execution out of order ---------------------------- */

  /** Two jobs in one batch: the follow-up that the first asks for, due before the second, runs after it. */
  lemma FollowUpOvertaken(h: Handler, early: Job, late: Job, followUp: Job)
    requires early == Job(early.work, Ready, 10, 0, 1, None) && late == Job(late.work, Ready, 20, 0, 1, None)
    requires followUp == Job(followUp.work, Ready, 12, 0, 1, None)
    requires h(early.AsItem(), 10) == Reaction(Complete, [Request(followUp.work, 1, 12)])
    requires h(late.AsItem(), 20) == h(followUp.AsItem(), 12) == Reaction(Complete, [])
    ensures var middle := [early.(status := Done), late.(status := Done), followUp];
            var first := Round([early, late], [0, 1], middle);
            var second := Round(middle, [2], middle[2 := followUp.(status := Done)]);
            Rounds([first, second], h, 2, 30) && !KeepsOrder(h, first) && !InOrder(Executed([first, second]))
  {
    var middle := [early.(status := Done), late.(status := Done), followUp];
    var first := Round([early, late], [0, 1], middle);
    var second := Round(middle, [2], middle[2 := followUp.(status := Done)]);
    FirstRoundRan(h, early, late, followUp);
    SecondRoundRan(h, middle, followUp);
    FollowUpIsSuccessor(h, early, followUp);
    hide Round.Ran, Successors, InOrder, Round.Entries;
    assert [first, second][..1] == [first] && [first][..0] == [];
    assert Rounds([], h, 2, 30) && Rounds([first], h, 2, 30);
    assert Rounds([first, second], h, 2, 30);
    assert !SuccessorsBehind(h, early.AsItem(), 0, LastOf([early, late], [0, 1]));
    assert AllKeepOrder(h, [first, second]) ==> KeepsOrder(h, first);
    DrainInOrderExactlyWhen(h, [first, second], 2, 30);
  }

  lemma FollowUpIsSuccessor(h: Handler, early: Job, followUp: Job)
    requires followUp.attempt == 0 && followUp.maxAttempts == 1 && followUp.runAt == 12
    requires h(early.AsItem(), early.runAt) == Reaction(Complete, [Request(followUp.work, 1, 12)])
    ensures followUp.AsItem() in Successors(h, early.AsItem())
  {
    InFreshAll([Request(followUp.work, 1, 12)], followUp.AsItem());
    assert Fresh([Request(followUp.work, 1, 12)][0]) == followUp.AsItem();
    hide FreshAll;
  }

  lemma FirstRoundRan(h: Handler, early: Job, late: Job, followUp: Job)
    requires early == Job(early.work, Ready, 10, 0, 1, None) && late == Job(late.work, Ready, 20, 0, 1, None)
    requires followUp == Job(followUp.work, Ready, 12, 0, 1, None)
    requires h(early.AsItem(), 10) == Reaction(Complete, [Request(followUp.work, 1, 12)])
    requires h(late.AsItem(), 20) == Reaction(Complete, [])
    ensures Round([early, late], [0, 1], [early.(status := Done), late.(status := Done), followUp]).Ran(h, 2, 30)
  {
    var middle := [early.(status := Done), late.(status := Done), followUp];
    var between := RunRow(h, [early, late], 0);
    assert between == [early.(status := Done), late, followUp];
    assert RunRow(h, between, 1) == middle;
    assert [0, 1][..1] == [0] && [0][..0] == [];
    assert RunRows(h, [early, late], [0]) == RunRow(h, RunRows(h, [early, late], []), 0);
    assert 0 in [0, 1] && 1 in [0, 1];
    hide RunRow;
  }

  lemma SecondRoundRan(h: Handler, middle: seq<Job>, followUp: Job)
    requires |middle| == 3 && middle[0].status == middle[1].status == Done && middle[2] == followUp
    requires followUp == Job(followUp.work, Ready, 12, 0, 1, None) && h(followUp.AsItem(), 12) == Reaction(Complete, [])
    ensures Round(middle, [2], middle[2 := followUp.(status := Done)]).Ran(h, 2, 30)
  {
    assert RunRow(h, middle, 2) == middle[2 := followUp.(status := Done)];
    assert [2][..0] == [];
    assert RunRows(h, middle, [2]) == RunRow(h, RunRows(h, middle, []), 2);
    assert 2 in [2];
    hide RunRow;
  }
}
