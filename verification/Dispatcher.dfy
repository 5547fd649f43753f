/** The webhook dispatcher: delivery rows and jobs updated in place, one attempt at a time. */
module Dispatcher {
  import opened Options
  import E = EngineSpec
  import opened Webhooks

  class WebhookDispatcher {
    const retry: RetryPolicy
    var deliveries: seq<Delivery>
    var jobs: seq<Job>
    var sent: seq<seq<int>>

    constructor (retry: RetryPolicy)
      ensures this.retry == retry && Rows() == Outbox([], [], [])
    {
      this.retry := retry;
      deliveries, jobs, sent := [], [], [];
    }

    function Rows(): Outbox
      reads this
    {
      Outbox(deliveries, jobs, sent)
    }

    method EnqueueJob(d: nat, delayMs: int, now: int)
      modifies this`jobs
      ensures Rows() == Enqueue(old(Rows()), d, delayMs, now)
    {
      jobs := jobs + [Job(d, now + (if delayMs > 0 then delayMs else 0), Queued)];
    }

    method Schedule(formatter: Formatter, override: Option<int>, delayMs: int, now: int) returns (d: nat)
      modifies this
      ensures d == |old(deliveries)|
      ensures Rows() == CreateAndSchedule(old(Rows()), retry, formatter, override, delayMs, now)
    {
      d := |deliveries|;
      var policy := PolicyFor(formatter, retry);
      var maxAttempts := if policy.enabled then policy.maxAttempts else 1;
      if override.Some? && override.value < maxAttempts { maxAttempts := override.value; }
      deliveries := deliveries + [Delivery(formatter, Pending, 0, maxAttempts, None)];
      sent := sent + [[]];
      EnqueueJob(d, delayMs, now);
    }

    method RecordAttempt(d: nat, policy: RetryPolicy, verdict: Verdict, attempt: nat, jitter: Fraction, now: int)
      requires d < |deliveries| && attempt >= 1
      modifies this`deliveries, this`jobs
      ensures Rows() == Record(old(Rows()), d, policy, verdict, attempt, jitter, now)
    {
      var x := deliveries[d].(attempt := attempt, nextRetryAt := None);
      if verdict == Delivered {
        deliveries := deliveries[d := x.(status := Succeeded)];
        return;
      }
      if verdict == Stop {
        deliveries := deliveries[d := x.(status := Failed)];
        return;
      }
      if !policy.enabled || attempt >= x.maxAttempts {
        deliveries := deliveries[d := x.(status := Exhausted)];
        return;
      }
      var delayMs := Delay(policy.backoff, attempt - 1, jitter);
      deliveries := deliveries[d := x.(status := Pending, nextRetryAt := Some(now + delayMs))];
      EnqueueJob(d, delayMs, now);
    }

    method DeliverNow(d: nat, endpoint: Endpoint, response: Response, jitter: Fraction, now: int)
      returns (error: Option<E.Error>)
      requires |deliveries| == |sent|
      modifies this
      ensures if d < |old(deliveries)|
              then error.None? && Rows() == Deliver(old(Rows()), retry, d, endpoint, response, jitter, now)
              else error == Some(E.NotFound) && Rows() == old(Rows())
    {
      if d >= |deliveries| { return Some(E.NotFound); }
      var x := deliveries[d];
      if x.status == Succeeded || x.status == Exhausted || x.status == Failed { return None; }
      if x.formatter.followsEndpointChanges && endpoint != Enabled {
        deliveries := deliveries[d := x.(status := Failed, nextRetryAt := None)];
        return None;
      }
      deliveries := deliveries[d := x.(status := Delivering)];
      sent := sent[d := sent[d] + [now]];
      var attempt := x.attempt + 1;
      var policy := PolicyFor(x.formatter, retry);
      var verdict := Classify(x.formatter, response);
      RecordsTheSame(Rows(), Outbox(old(deliveries), jobs, sent), d, policy, verdict, attempt, jitter, now);
      hide Record;
      RecordAttempt(d, policy, verdict, attempt, jitter, now);
      return None;
    }

    method RetryByHand(d: nat, endpoint: Endpoint, response: Response, jitter: Fraction, now: int)
      returns (error: Option<E.Error>)
      requires |deliveries| == |sent|
      modifies this
      ensures if d < |old(deliveries)|
              then error.None? && Rows() == RetryNow(old(Rows()), retry, d, endpoint, response, jitter, now)
              else error == Some(E.NotFound) && Rows() == old(Rows())
    {
      hide Deliver;
      if d >= |deliveries| { return Some(E.NotFound); }
      var x := deliveries[d];
      var granted := if x.maxAttempts > x.attempt + 1 then x.maxAttempts else x.attempt + 1;
      deliveries := deliveries[d := x.(status := Pending, maxAttempts := granted, nextRetryAt := Some(now))];
      error := DeliverNow(d, endpoint, response, jitter, now);
    }

    method ReplayDelivery(d: nat, endpoint: Endpoint, override: Option<int>, latencyMs: int, now: int)
      returns (error: Option<E.Error>)
      modifies this
      ensures if d < |old(deliveries)| && endpoint != Deleted
              then error.None? && Rows() == Replay(old(Rows()), d, override, latencyMs, now)
              else error == Some(E.NotFound) && Rows() == old(Rows())
    {
      if d >= |deliveries| || endpoint == Deleted { return Some(E.NotFound); }
      var x := deliveries[d];
      var maxAttempts := x.maxAttempts;
      if override.Some? && override.value < maxAttempts { maxAttempts := override.value; }
      deliveries := deliveries + [x.(status := Pending, attempt := 0, nextRetryAt := None, maxAttempts := maxAttempts)];
      sent := sent + [[]];
      EnqueueJob(|deliveries| - 1, latencyMs, now);
      return None;
    }
  }

  /** Recording overwrites whatever status the row had in between. */
  lemma RecordsTheSame(o: Outbox, p: Outbox, d: nat, policy: RetryPolicy, verdict: Verdict, attempt: nat, jitter: Fraction, now: int)
    requires d < |p.deliveries| && attempt >= 1
    requires o == p.(deliveries := p.deliveries[d := p.deliveries[d].(status := Delivering)])
    ensures Record(o, d, policy, verdict, attempt, jitter, now) == Record(p, d, policy, verdict, attempt, jitter, now)
  {
    hide Delay;
  }
}
