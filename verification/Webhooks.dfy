/** Webhook delivery: a ladder of attempts on virtual time, each rung a job. */
module Webhooks {
  import opened Options
  import J = JobRuns
  import E = EngineSpec

  /* ---------------------------- retry policies ---------------------------- */

  /** A draw of the seeded generator, or 1, which stands for no jitter. */
  type Fraction = r: real | 0.0 <= r <= 1.0 witness 0.0

  /** Exponential with jitter and a cap, a flat interval, or no delay at all. */
  datatype Backoff = Exponential(baseMs: nat, maxMs: nat) | FixedInterval(ms: int) | Immediate

  datatype RetryPolicy = RetryPolicy(enabled: bool, maxAttempts: int, backoff: Backoff)

  const DEFAULT_POLICY := RetryPolicy(true, 5, Exponential(1_000, 3_600_000))

  /** The delay of a rung before jitter: doubling up to the cap. */
  function Rung(b: Backoff, i: nat): int {
    match b
    case Exponential(base, max) => if base * J.Pow2(i) < max then base * J.Pow2(i) else max
    case FixedInterval(ms) => ms
    case Immediate => 0
  }

  /** `Math.round`: a half goes up. */
  function Round(x: real): int { (x + 0.5).Floor }

  /** Between half of a rung and all of it. */
  function Spread(rung: int, jitter: Fraction): real { rung as real * (0.5 + 0.5 * jitter) }

  function Delay(b: Backoff, i: nat, jitter: Fraction): int {
    if b.Exponential? then Round(Spread(Rung(b, i), jitter)) else Rung(b, i)
  }

  /** The least and the most that an enqueued retry can wait. */
  function Least(b: Backoff, i: nat): int { if b.Exponential? then (Rung(b, i) + 1) / 2 else E.Max0(Rung(b, i)) }

  function Most(b: Backoff, i: nat): int { E.Max0(Rung(b, i)) }

  lemma RoundBounds(raw: nat, x: real)
    requires raw as real / 2.0 <= x <= raw as real
    ensures (raw + 1) / 2 <= Round(x) <= raw
  {
  }

  lemma JitterBounds(raw: nat, jitter: Fraction)
    ensures (raw + 1) / 2 <= Round(Spread(raw, jitter)) <= raw
  {
    hide Round;
    Scaled(raw as real, 0.5 + 0.5 * jitter);
    RoundBounds(raw, Spread(raw, jitter));
  }

  lemma Scaled(raw: real, share: real)
    requires raw >= 0.0 && 0.5 <= share <= 1.0
    ensures raw / 2.0 <= raw * share <= raw
  {
    assert raw * share - raw / 2.0 == raw * (share - 0.5);
    assert raw - raw * share == raw * (1.0 - share);
    NonNegativeProduct(raw, share - 0.5);
    NonNegativeProduct(raw, 1.0 - share);
  }

  lemma NonNegativeProduct(a: real, b: real)
    requires a >= 0.0 && b >= 0.0
    ensures a * b >= 0.0
  {
  }

  lemma {:induction false} Pow2IsPositive(i: nat)
    ensures J.Pow2(i) >= 1
  {
    if i > 0 { Pow2IsPositive(i - 1); }
  }

  /** A jittered wait is between half of its rung and all of it. */
  lemma DelayBounds(b: Backoff, i: nat, jitter: Fraction)
    ensures Least(b, i) <= E.Max0(Delay(b, i, jitter)) <= Most(b, i)
  {
    if b.Exponential? {
      Pow2IsPositive(i);
      assert b.baseMs * J.Pow2(i) >= 0;
      JitterBounds(Rung(b, i), jitter);
      hide Round, Rung, Spread;
    }
  }

  function LeastSum(b: Backoff, n: nat): int { if n == 0 then 0 else LeastSum(b, n - 1) + Least(b, n - 1) }

  function MostSum(b: Backoff, n: nat): int { if n == 0 then 0 else MostSum(b, n - 1) + Most(b, n - 1) }

  /* ---------------------------- responses ---------------------------- */

  /** What the transport brought back: a status and a body, or no status at all. */
  datatype Response = Response(status: Option<int>, body: string)

  datatype Verdict = Delivered | Retry | Stop

  /** What a provider's adapter may say about its own webhooks. */
  datatype Formatter = Formatter(
    retry: Option<RetryPolicy>, followsEndpointChanges: bool,
    classify: Option<Response -> Verdict>, interpret: Option<Response -> bool>)

  function HttpOk(r: Response): bool { r.status.Some? && 200 <= r.status.value < 300 }

  function Accepted(f: Formatter, r: Response): bool {
    HttpOk(r) && (f.interpret.None? || f.interpret.value(r))
  }

  function Classify(f: Formatter, r: Response): Verdict {
    if f.classify.Some? then f.classify.value(r) else if Accepted(f, r) then Delivered else Retry
  }

  /** A provider's own ladder counts only while retries are on at all. */
  function PolicyFor(f: Formatter, global: RetryPolicy): RetryPolicy {
    if f.retry.None? || !global.enabled then global else f.retry.value
  }

  /* ---------------------------- deliveries ---------------------------- */

  datatype Status = Pending | Delivering | Succeeded | Failed | Exhausted

  datatype Endpoint = Enabled | Disabled | Deleted

  datatype Delivery = Delivery(formatter: Formatter, status: Status, attempt: nat, maxAttempts: int, nextRetryAt: Option<int>)

  datatype Stage = Queued | InHand | Over

  datatype Job = Job(delivery: nat, runAt: int, stage: Stage)

  /** Delivery rows, delivery jobs, and the instants each delivery was really sent. */
  datatype Outbox = Outbox(deliveries: seq<Delivery>, jobs: seq<Job>, sent: seq<seq<int>>)

  predicate Final(status: Status) { status == Succeeded || status == Exhausted || status == Failed }

  function Enqueue(o: Outbox, d: nat, delayMs: int, now: int): Outbox {
    o.(jobs := o.jobs + [Job(d, now + E.Max0(delayMs), Queued)])
  }

  /** The ladder's length, capped when the caller asks for fewer attempts. */
  function Allowance(policy: RetryPolicy, override: Option<int>): int {
    var ladder := if policy.enabled then policy.maxAttempts else 1;
    if override.Some? && override.value < ladder then override.value else ladder
  }

  function CreateAndSchedule(o: Outbox, global: RetryPolicy, f: Formatter, override: Option<int>, delayMs: int, now: int): Outbox {
    var delivery := Delivery(f, Pending, 0, Allowance(PolicyFor(f, global), override), None);
    Enqueue(o.(deliveries := o.deliveries + [delivery], sent := o.sent + [[]]), |o.deliveries|, delayMs, now)
  }

  /** Write the outcome of one attempt, and schedule the next if one is due. */
  function Record(o: Outbox, d: nat, policy: RetryPolicy, verdict: Verdict, attempt: nat, jitter: Fraction, now: int): Outbox
    requires d < |o.deliveries| && attempt >= 1
  {
    var x := o.deliveries[d];
    if verdict == Delivered then
      o.(deliveries := o.deliveries[d := x.(status := Succeeded, attempt := attempt, nextRetryAt := None)])
    else if verdict == Stop then
      o.(deliveries := o.deliveries[d := x.(status := Failed, attempt := attempt, nextRetryAt := None)])
    else if !(policy.enabled && attempt < x.maxAttempts) then
      o.(deliveries := o.deliveries[d := x.(status := Exhausted, attempt := attempt, nextRetryAt := None)])
    else
      var delayMs := Delay(policy.backoff, attempt - 1, jitter);
      Enqueue(o.(deliveries := o.deliveries[d := x.(status := Pending, attempt := attempt, nextRetryAt := Some(now + delayMs))]),
              d, delayMs, now)
  }

  function Deliver(o: Outbox, global: RetryPolicy, d: nat, endpoint: Endpoint, response: Response, jitter: Fraction, now: int): Outbox
    requires d < |o.deliveries| == |o.sent|
  {
    var x := o.deliveries[d];
    if Final(x.status) then o
    else if x.formatter.followsEndpointChanges && endpoint != Enabled then
      o.(deliveries := o.deliveries[d := x.(status := Failed, nextRetryAt := None)])
    else
      Record(o.(sent := o.sent[d := o.sent[d] + [now]]), d, PolicyFor(x.formatter, global),
             Classify(x.formatter, response), x.attempt + 1, jitter, now)
  }

  /** One more attempt now, whatever the status. */
  function RetryNow(o: Outbox, global: RetryPolicy, d: nat, endpoint: Endpoint, response: Response, jitter: Fraction, now: int): Outbox
    requires d < |o.deliveries| == |o.sent|
  {
    var x := o.deliveries[d];
    var granted := if x.maxAttempts > x.attempt + 1 then x.maxAttempts else x.attempt + 1;
    Deliver(o.(deliveries := o.deliveries[d := x.(status := Pending, maxAttempts := granted, nextRetryAt := Some(now))]),
            global, d, endpoint, response, jitter, now)
  }

  /** A fresh delivery of the same payload. */
  function Replay(o: Outbox, d: nat, override: Option<int>, latencyMs: int, now: int): Outbox
    requires d < |o.deliveries|
  {
    var x := o.deliveries[d];
    var allowance := if override.Some? && override.value < x.maxAttempts then override.value else x.maxAttempts;
    var copy := x.(status := Pending, attempt := 0, nextRetryAt := None, maxAttempts := allowance);
    Enqueue(o.(deliveries := o.deliveries + [copy], sent := o.sent + [[]]), |o.deliveries|, latencyMs, now)
  }

  datatype Step =
    | Create(formatter: Formatter, override: Option<int>, delayMs: int, now: int)
    | Claim(job: nat)
    | Run(job: nat, endpoint: Endpoint, response: Response, jitter: Fraction)
    | Again(delivery: nat, endpoint: Endpoint, response: Response, jitter: Fraction, now: int)
    | Resend(delivery: nat, override: Option<int>, latencyMs: int, now: int)

  predicate Has(o: Outbox, j: nat, stage: Stage) { j < |o.jobs| && o.jobs[j].stage == stage }

  function SetStage(o: Outbox, j: nat, stage: Stage): Outbox
    requires j < |o.jobs|
  {
    o.(jobs := o.jobs[j := o.jobs[j].(stage := stage)])
  }

  predicate Shaped(o: Outbox) { |o.deliveries| == |o.sent| && forall j: nat :: j < |o.jobs| ==> o.jobs[j].delivery < |o.deliveries| }

  /** A job runs with the clock showing the instant it was due; an impossible step does nothing. */
  function Take(o: Outbox, global: RetryPolicy, step: Step): Outbox
    requires Shaped(o)
  {
    match step
    case Create(f, override, delayMs, now) => CreateAndSchedule(o, global, f, override, delayMs, now)
    case Claim(j) => if Has(o, j, Queued) then SetStage(o, j, InHand) else o
    case Run(j, endpoint, response, jitter) =>
      if Has(o, j, InHand)
      then Deliver(SetStage(o, j, Over), global, o.jobs[j].delivery, endpoint, response, jitter, o.jobs[j].runAt)
      else o
    case Again(d, endpoint, response, jitter, now) =>
      if d < |o.deliveries| then RetryNow(o, global, d, endpoint, response, jitter, now) else o
    case Resend(d, override, latencyMs, now) =>
      if d < |o.deliveries| then Replay(o, d, override, latencyMs, now) else o
  }

  lemma TakeKeepsShape(o: Outbox, global: RetryPolicy, step: Step)
    requires Shaped(o)
    ensures Shaped(Take(o, global, step))
    ensures |o.deliveries| <= |Take(o, global, step).deliveries|
  {
    hide Delay, Classify, PolicyFor;
  }

  function Follow(o: Outbox, global: RetryPolicy, steps: seq<Step>): (r: Outbox)
    requires Shaped(o)
    ensures Shaped(r) && |r.deliveries| >= |o.deliveries|
  {
    if steps == [] then o else
    var before := Follow(o, global, steps[..|steps| - 1]);
    TakeKeepsShape(before, global, steps[|steps| - 1]);
    Take(before, global, steps[|steps| - 1])
  }

  /* ---------------------------- one delivery's ladder ---------------------------- */

  predicate OpenFor(o: Outbox, j: nat, d: nat) {
    j < |o.jobs| && o.jobs[j].delivery == d && o.jobs[j].stage != Over
  }

  /** Each send after the first waited its rung, jitter and all. */
  ghost predicate Spaced(b: Backoff, sent: seq<int>) {
    forall i: nat :: i + 1 < |sent| ==> Least(b, i) <= sent[i + 1] - sent[i] <= Most(b, i)
  }

  /** The next send is due one rung after the last. */
  predicate Timely(b: Backoff, sent: seq<int>, runAt: int) {
    sent != [] ==> Least(b, |sent| - 1) <= runAt - sent[|sent| - 1] <= Most(b, |sent| - 1)
  }

  function Ceiling(x: Delivery): int { if x.maxAttempts > 1 then x.maxAttempts else 1 }

  ghost predicate OneOpenJob(o: Outbox, d: nat) {
    && (forall i: nat, j: nat :: OpenFor(o, i, d) && OpenFor(o, j, d) ==> i == j)
    && d < |o.deliveries| == |o.sent|
    && (Final(o.deliveries[d].status) ==> forall j: nat :: !OpenFor(o, j, d))
    && (!Final(o.deliveries[d].status) ==> exists j: nat :: OpenFor(o, j, d))
  }

  /** Where a delivery nobody retries by hand stands on its ladder. */
  ghost predicate Laddered(o: Outbox, global: RetryPolicy, d: nat) {
    && Shaped(o) && OneOpenJob(o, d)
    && (var x, sent := o.deliveries[d], o.sent[d];
        var policy := PolicyFor(x.formatter, global);
        && x.status != Delivering
        && x.attempt == |sent| <= Ceiling(x)
        && Spaced(policy.backoff, sent)
        && (x.status == Pending ==> x.attempt < Ceiling(x) && (x.attempt > 0 ==> policy.enabled))
        && (x.status == Exhausted ==> x.attempt == if policy.enabled then Ceiling(x) else 1)
        && (forall j: nat :: OpenFor(o, j, d) ==> Timely(policy.backoff, sent, o.jobs[j].runAt)))
  }

  /** The step is not a manual retry of this delivery. */
  predicate LeavesAlone(step: Step, d: nat) { !(step.Again? && step.delivery == d) }

  /** Nothing of this delivery changed: its row, its sends, or its open jobs. */
  ghost predicate Untouched(o: Outbox, p: Outbox, d: nat) {
    && d < |o.deliveries| && d < |p.deliveries| && d < |o.sent| && d < |p.sent|
    && p.deliveries[d] == o.deliveries[d] && p.sent[d] == o.sent[d]
    && |o.jobs| <= |p.jobs|
    && (forall j: nat :: j < |o.jobs| ==> OpenFor(p, j, d) == OpenFor(o, j, d) && p.jobs[j].runAt == o.jobs[j].runAt)
    && (forall j: nat :: |o.jobs| <= j < |p.jobs| ==> p.jobs[j].delivery != d)
  }

  lemma UntouchedKeeps(o: Outbox, p: Outbox, global: RetryPolicy, d: nat)
    requires Laddered(o, global, d) && Untouched(o, p, d) && Shaped(p)
    ensures Laddered(p, global, d)
  {
    hide Least, Most, PolicyFor;
    if !Final(o.deliveries[d].status) {
      var j: nat :| OpenFor(o, j, d);
      assert OpenFor(p, j, d);
    }
  }

  lemma OthersAreUntouched(o: Outbox, global: RetryPolicy, step: Step, d: nat)
    requires Shaped(o) && d < |o.deliveries|
    requires LeavesAlone(step, d) && (step.Run? && Has(o, step.job, InHand) ==> o.jobs[step.job].delivery != d)
    ensures Untouched(o, Take(o, global, step), d)
  {
    hide Delay, Classify, PolicyFor;
  }

  lemma AttemptKeepsLadder(o: Outbox, global: RetryPolicy, d: nat, response: Response, jitter: Fraction, now: int)
    requires Shaped(o) && d < |o.deliveries| && (forall j: nat :: !OpenFor(o, j, d))
    requires var x, b := o.deliveries[d], PolicyFor(o.deliveries[d].formatter, global).backoff;
             && x.status == Pending && x.attempt == |o.sent[d]| < Ceiling(x)
             && (x.attempt > 0 ==> PolicyFor(x.formatter, global).enabled)
             && Spaced(b, o.sent[d]) && Timely(b, o.sent[d], now)
    ensures var x := o.deliveries[d];
            Laddered(Record(o.(sent := o.sent[d := o.sent[d] + [now]]), d, PolicyFor(x.formatter, global),
                            Classify(x.formatter, response), x.attempt + 1, jitter, now), global, d)
  {
    hide Least, Most, PolicyFor, Classify, Delay, Rung, OneOpenJob, Record, Spaced, OpenFor;
    var x := o.deliveries[d];
    var policy, sent := PolicyFor(x.formatter, global), o.sent[d] + [now];
    var b, q, verdict := policy.backoff, o.(sent := o.sent[d := sent]), Classify(x.formatter, response);
    DelayBounds(b, x.attempt, jitter);
    SpacedMore(b, o.sent[d], now);
    SentLeavesJobs(o, q, d);
    RecordLeavesOneJob(q, d, policy, verdict, x.attempt + 1, jitter, now);
    RecordedRow(q, d, policy, verdict, x.attempt + 1, jitter, now);
  }

  lemma SpacedMore(b: Backoff, sent: seq<int>, now: int)
    requires Spaced(b, sent) && Timely(b, sent, now)
    ensures Spaced(b, sent + [now])
  {
    hide Least, Most;
  }

  lemma SentLeavesJobs(o: Outbox, q: Outbox, d: nat)
    requires q.jobs == o.jobs && forall j: nat :: !OpenFor(o, j, d)
    ensures forall j: nat :: !OpenFor(q, j, d)
  {
    assert forall j: nat :: OpenFor(q, j, d) == OpenFor(o, j, d);
  }

  lemma RecordedRow(o: Outbox, d: nat, policy: RetryPolicy, verdict: Verdict, attempt: nat, jitter: Fraction, now: int)
    requires d < |o.deliveries| && attempt >= 1 && (forall j: nat :: !OpenFor(o, j, d))
    ensures var x, p := o.deliveries[d], Record(o, d, policy, verdict, attempt, jitter, now);
            && |p.deliveries| == |o.deliveries| && p.sent == o.sent
            && (var y := p.deliveries[d];
                && y.formatter == x.formatter && y.maxAttempts == x.maxAttempts && y.attempt == attempt
                && y.status in {Pending, Succeeded, Failed, Exhausted}
                && (y.status == Pending ==> policy.enabled && attempt < x.maxAttempts)
                && (y.status == Exhausted ==> !policy.enabled || attempt >= x.maxAttempts)
                && forall j: nat :: OpenFor(p, j, d) ==>
                     p.jobs[j].runAt == now + E.Max0(Delay(policy.backoff, attempt - 1, jitter)))
  {
    hide Delay;
    var p := Record(o, d, policy, verdict, attempt, jitter, now);
    assert forall j: nat :: OpenFor(p, j, d) ==> j == |o.jobs| || OpenFor(o, j, d);
  }

  lemma RecordLeavesOneJob(o: Outbox, d: nat, policy: RetryPolicy, verdict: Verdict, attempt: nat, jitter: Fraction, now: int)
    requires Shaped(o) && d < |o.deliveries| && attempt >= 1 && (forall j: nat :: !OpenFor(o, j, d))
    ensures var p := Record(o, d, policy, verdict, attempt, jitter, now); Shaped(p) && OneOpenJob(p, d)
  {
    hide Delay;
    var p := Record(o, d, policy, verdict, attempt, jitter, now);
    assert forall j: nat :: OpenFor(p, j, d) ==> j == |o.jobs| || OpenFor(o, j, d);
    if p.deliveries[d].status == Pending { assert OpenFor(p, |o.jobs|, d); }
  }

  /** Its endpoint gone, the delivery is refused without being sent. */
  lemma RefusalKeepsLadder(o: Outbox, global: RetryPolicy, d: nat)
    requires Shaped(o) && d < |o.deliveries| && (forall j: nat :: !OpenFor(o, j, d))
    requires var x := o.deliveries[d];
             x.attempt == |o.sent[d]| <= Ceiling(x) && Spaced(PolicyFor(x.formatter, global).backoff, o.sent[d])
    ensures Laddered(o.(deliveries := o.deliveries[d := o.deliveries[d].(status := Failed, nextRetryAt := None)]), global, d)
  {
    hide PolicyFor, Spaced, Timely;
    var p := o.(deliveries := o.deliveries[d := o.deliveries[d].(status := Failed, nextRetryAt := None)]);
    assert forall j: nat :: OpenFor(p, j, d) == OpenFor(o, j, d);
    assert p.sent == o.sent && p.deliveries[d].formatter == o.deliveries[d].formatter;
  }

  lemma TakenJobLeavesNone(o: Outbox, j: nat, d: nat)
    requires OneOpenJob(o, d) && OpenFor(o, j, d)
    ensures forall k: nat :: !OpenFor(SetStage(o, j, Over), k, d)
    ensures !Final(o.deliveries[d].status)
  {
    forall k: nat ensures !OpenFor(SetStage(o, j, Over), k, d) {
      assert OpenFor(SetStage(o, j, Over), k, d) ==> OpenFor(o, k, d);
    }
  }

  lemma OwnRunKeepsLadder(o: Outbox, global: RetryPolicy, step: Step, d: nat)
    requires Laddered(o, global, d) && step.Run? && Has(o, step.job, InHand) && o.jobs[step.job].delivery == d
    ensures Laddered(Take(o, global, step), global, d)
  {
    hide Least, Most, PolicyFor, Classify, Spaced, Record, Timely;
    var j := step.job;
    assert OpenFor(o, j, d);
    TakenJobLeavesNone(o, j, d);
    var p := SetStage(o, j, Over);
    if p.deliveries[d].formatter.followsEndpointChanges && step.endpoint != Enabled {
      RefusalKeepsLadder(p, global, d);
    } else {
      AttemptKeepsLadder(p, global, d, step.response, step.jitter, o.jobs[j].runAt);
    }
  }

  lemma NewIsLaddered(o: Outbox, global: RetryPolicy, step: Step)
    requires Shaped(o) && (step.Create? || (step.Resend? && step.delivery < |o.deliveries|))
    ensures Laddered(Take(o, global, step), global, |o.deliveries|)
    ensures Take(o, global, step).sent[|o.deliveries|] == []
  {
    hide Least, Most, PolicyFor;
    assert OpenFor(Take(o, global, step), |o.jobs|, |o.deliveries|);
  }

  lemma TakeKeepsLadder(o: Outbox, global: RetryPolicy, step: Step, d: nat)
    requires Laddered(o, global, d) && LeavesAlone(step, d)
    ensures Laddered(Take(o, global, step), global, d)
  {
    TakeKeepsShape(o, global, step);
    hide Take, Spaced, OneOpenJob, Least, Most;
    if step.Run? && Has(o, step.job, InHand) && o.jobs[step.job].delivery == d {
      OwnRunKeepsLadder(o, global, step, d);
    } else {
      OneOpenJobExists(o, d);
      OthersAreUntouched(o, global, step, d);
      UntouchedKeeps(o, Take(o, global, step), global, d);
    }
  }

  lemma OneOpenJobExists(o: Outbox, d: nat)
    requires OneOpenJob(o, d)
    ensures d < |o.deliveries|
  {
  }

  /** Over any run that does not retry it by hand, a delivery climbs its ladder and nothing else. */
  lemma {:induction false} LadderHolds(o: Outbox, global: RetryPolicy, steps: seq<Step>, d: nat)
    requires Shaped(o) && Laddered(o, global, d) && forall step <- steps :: LeavesAlone(step, d)
    ensures Laddered(Follow(o, global, steps), global, d)
  {
    hide Laddered, Take;
    if steps != [] {
      LadderHolds(o, global, steps[..|steps| - 1], d);
      TakeKeepsLadder(Follow(o, global, steps[..|steps| - 1]), global, steps[|steps| - 1], d);
    }
  }

  /** A final status is never left and its delivery never sent again, even by a job still queued or in hand. */
  lemma {:induction false} FinalIsFinal(o: Outbox, global: RetryPolicy, steps: seq<Step>, d: nat)
    requires Shaped(o) && d < |o.deliveries| && Final(o.deliveries[d].status)
    requires forall step <- steps :: LeavesAlone(step, d)
    ensures var end := Follow(o, global, steps);
            end.deliveries[d] == o.deliveries[d] && end.sent[d] == o.sent[d]
  {
    hide Take;
    if steps != [] {
      FinalIsFinal(o, global, steps[..|steps| - 1], d);
      FinalSurvives(Follow(o, global, steps[..|steps| - 1]), global, steps[|steps| - 1], d);
    }
  }

  lemma FinalSurvives(o: Outbox, global: RetryPolicy, step: Step, d: nat)
    requires Shaped(o) && d < |o.deliveries| && Final(o.deliveries[d].status) && LeavesAlone(step, d)
    ensures Shaped(Take(o, global, step)) && d < |Take(o, global, step).deliveries|
    ensures Take(o, global, step).deliveries[d] == o.deliveries[d] && Take(o, global, step).sent[d] == o.sent[d]
  {
    TakeKeepsShape(o, global, step);
    if !(step.Run? && Has(o, step.job, InHand) && o.jobs[step.job].delivery == d) {
      OthersAreUntouched(o, global, step, d);
      hide Take;
    }
  }

  /* ---------------------------- how many, and how long ---------------------------- */

  lemma {:induction false} ElapsedIsTheSum(b: Backoff, sent: seq<int>)
    requires Spaced(b, sent) && sent != []
    ensures LeastSum(b, |sent| - 1) <= sent[|sent| - 1] - sent[0] <= MostSum(b, |sent| - 1)
    decreases |sent|
  {
    hide Least, Most;
    var n := |sent| - 1;
    if n > 0 {
      assert Spaced(b, sent[..n]);
      ElapsedIsTheSum(b, sent[..n]);
      assert Least(b, n - 1) <= sent[n - 1 + 1] - sent[n - 1] <= Most(b, n - 1);
    }
  }

  lemma {:induction false} MostSumGrows(b: Backoff, m: nat, n: nat)
    requires m <= n
    ensures MostSum(b, m) <= MostSum(b, n)
  {
    if m < n { MostSumGrows(b, m, n - 1); }
  }

  /** Never more sends than the ladder allows; exhaustion takes the whole ladder, and the time its rungs add up to. */
  lemma ExhaustionTakesTheLadder(o: Outbox, global: RetryPolicy, steps: seq<Step>, d: nat)
    requires Shaped(o) && Laddered(o, global, d) && forall step <- steps :: LeavesAlone(step, d)
    ensures var end := Follow(o, global, steps);
            var x, sent := end.deliveries[d], end.sent[d];
            var policy := PolicyFor(x.formatter, global);
            && |sent| <= Ceiling(x)
            && (x.status == Exhausted ==>
                  && |sent| == (if policy.enabled then Ceiling(x) else 1)
                  && LeastSum(policy.backoff, |sent| - 1) <= sent[|sent| - 1] - sent[0]
                  && sent[|sent| - 1] - sent[0] <= MostSum(policy.backoff, |sent| - 1))
  {
    LadderHolds(o, global, steps, d);
    hide Follow, PolicyFor, LeastSum, MostSum;
    var end := Follow(o, global, steps);
    if end.deliveries[d].status == Exhausted {
      ElapsedIsTheSum(PolicyFor(end.deliveries[d].formatter, global).backoff, end.sent[d]);
    }
  }

  /** Nothing of this delivery is waiting at an instant. */
  ghost predicate NothingDue(o: Outbox, d: nat, at: int) { forall j: nat :: OpenFor(o, j, d) ==> o.jobs[j].runAt > at }

  /** Once attempted, a delivery drained past all its rungs is finished. */
  lemma OneAdvanceFinishes(o: Outbox, global: RetryPolicy, d: nat, at: int)
    requires Laddered(o, global, d) && o.sent[d] != [] && NothingDue(o, d, at)
    requires at >= o.sent[d][0] + MostSum(PolicyFor(o.deliveries[d].formatter, global).backoff, Ceiling(o.deliveries[d]) - 1)
    ensures Final(o.deliveries[d].status)
  {
    hide PolicyFor, Least, Most;
    var x, sent := o.deliveries[d], o.sent[d];
    var b := PolicyFor(x.formatter, global).backoff;
    if !Final(x.status) {
      var j: nat :| OpenFor(o, j, d);
      ElapsedIsTheSum(b, sent);
      assert MostSum(b, |sent|) == MostSum(b, |sent| - 1) + Most(b, |sent| - 1);
      MostSumGrows(b, |sent|, Ceiling(x) - 1);
    }
  }

  lemma TermsStayInOneStep(o: Outbox, global: RetryPolicy, step: Step, d: nat)
    requires Shaped(o) && d < |o.deliveries| && LeavesAlone(step, d)
    ensures var p := Take(o, global, step);
            && d < |p.deliveries|
            && p.deliveries[d].maxAttempts == o.deliveries[d].maxAttempts
            && p.deliveries[d].formatter == o.deliveries[d].formatter
  {
    hide Delay, Classify, PolicyFor;
  }

  lemma {:induction false} TermsStay(o: Outbox, global: RetryPolicy, steps: seq<Step>, d: nat)
    requires Shaped(o) && d < |o.deliveries| && forall step <- steps :: LeavesAlone(step, d)
    ensures var end := Follow(o, global, steps);
            && end.deliveries[d].maxAttempts == o.deliveries[d].maxAttempts
            && end.deliveries[d].formatter == o.deliveries[d].formatter
  {
    hide Take;
    if steps != [] {
      TermsStay(o, global, steps[..|steps| - 1], d);
      TermsStayInOneStep(Follow(o, global, steps[..|steps| - 1]), global, steps[|steps| - 1], d);
    }
  }

  /** The first send was, or is to be, at a known instant. */
  ghost predicate FirstAt(o: Outbox, d: nat, start: int) {
    && d < |o.deliveries| && d < |o.sent|
    && (if o.sent[d] != [] then o.sent[d][0] == start
        else forall j: nat :: OpenFor(o, j, d) ==> o.jobs[j].runAt == start)
  }

  lemma TakeKeepsFirst(o: Outbox, global: RetryPolicy, step: Step, d: nat, start: int)
    requires Laddered(o, global, d) && FirstAt(o, d, start) && LeavesAlone(step, d)
    ensures FirstAt(Take(o, global, step), d, start)
  {
    hide PolicyFor, Classify, Delay, Spaced, Timely;
    if step.Run? && Has(o, step.job, InHand) && o.jobs[step.job].delivery == d {
      assert OpenFor(o, step.job, d);
      TakenJobLeavesNone(o, step.job, d);
      OwnRunKeepsFirst(o, global, step, d, start);
    } else {
      OthersAreUntouched(o, global, step, d);
      hide Take, Laddered;
      var p := Take(o, global, step);
      assert forall j: nat :: OpenFor(p, j, d) ==> j < |o.jobs| && OpenFor(o, j, d);
    }
  }

  lemma OwnRunKeepsFirst(o: Outbox, global: RetryPolicy, step: Step, d: nat, start: int)
    requires Shaped(o) && FirstAt(o, d, start) && step.Run? && Has(o, step.job, InHand) && o.jobs[step.job].delivery == d
    requires forall j: nat :: !OpenFor(SetStage(o, step.job, Over), j, d)
    ensures FirstAt(Take(o, global, step), d, start)
  {
    hide PolicyFor, Classify, Delay;
    assert OpenFor(o, step.job, d);
    var taken, p := SetStage(o, step.job, Over), Take(o, global, step);
    if p.sent[d] == [] {
      assert forall j: nat :: OpenFor(p, j, d) == OpenFor(taken, j, d);
    }
  }

  lemma {:induction false} FirstStays(o: Outbox, global: RetryPolicy, steps: seq<Step>, d: nat, start: int)
    requires Shaped(o) && Laddered(o, global, d) && FirstAt(o, d, start) && forall step <- steps :: LeavesAlone(step, d)
    ensures FirstAt(Follow(o, global, steps), d, start)
  {
    hide Laddered, Take, FirstAt;
    if steps != [] {
      FirstStays(o, global, steps[..|steps| - 1], d, start);
      LadderHolds(o, global, steps[..|steps| - 1], d);
      TakeKeepsFirst(Follow(o, global, steps[..|steps| - 1]), global, steps[|steps| - 1], d, start);
    }
  }

  /** Attempted or not: drained past all its rungs, counted from its first send, a delivery is finished. */
  lemma LateEnoughIsFinal(o: Outbox, global: RetryPolicy, d: nat, start: int, at: int)
    requires Laddered(o, global, d) && FirstAt(o, d, start) && NothingDue(o, d, at)
    requires at >= start + MostSum(PolicyFor(o.deliveries[d].formatter, global).backoff, Ceiling(o.deliveries[d]) - 1)
    ensures Final(o.deliveries[d].status)
  {
    var b := PolicyFor(o.deliveries[d].formatter, global).backoff;
    MostSumGrows(b, 0, Ceiling(o.deliveries[d]) - 1);
    if o.sent[d] != [] {
      OneAdvanceFinishes(o, global, d, at);
    }
  }

  lemma FollowedIsFinishedInTime(o: Outbox, global: RetryPolicy, steps: seq<Step>, d: nat, start: int, at: int)
    requires Shaped(o) && Laddered(o, global, d) && FirstAt(o, d, start) && forall step <- steps :: LeavesAlone(step, d)
    requires d < |o.deliveries| && NothingDue(Follow(o, global, steps), d, at)
    requires at >= start + MostSum(PolicyFor(o.deliveries[d].formatter, global).backoff, Ceiling(o.deliveries[d]) - 1)
    ensures Final(Follow(o, global, steps).deliveries[d].status)
  {
    hide Follow, Laddered, FirstAt, MostSum, PolicyFor, NothingDue, LeavesAlone, Final;
    TermsStay(o, global, steps, d);
    LadderHolds(o, global, steps, d);
    FirstStays(o, global, steps, d, start);
    LateEnoughIsFinal(Follow(o, global, steps), global, d, start, at);
  }

  /**
   * From its creation on: whatever else the queue does, once everything due of a delivery has run at an instant
   * that is its whole ladder past its first job, the delivery is finished.
   */
  lemma CreatedIsFinishedInTime(o: Outbox, global: RetryPolicy, f: Formatter, override: Option<int>, delayMs: int,
                                now: int, steps: seq<Step>, at: int)
    requires Shaped(o) && forall step <- steps :: LeavesAlone(step, |o.deliveries|)
    ensures Shaped(Take(o, global, Create(f, override, delayMs, now)))
    ensures var d, created := |o.deliveries|, Take(o, global, Create(f, override, delayMs, now));
            var end := Follow(created, global, steps);
            && d < |created.deliveries| && d < |end.deliveries|
            && (NothingDue(end, d, at)
                && at >= now + E.Max0(delayMs)
                         + MostSum(PolicyFor(f, global).backoff, Ceiling(created.deliveries[d]) - 1)
                ==> Final(end.deliveries[d].status))
  {
    hide Take, Follow, Laddered, FirstAt, MostSum, PolicyFor, NothingDue, LeavesAlone, Shaped, Final;
    var create, d := Create(f, override, delayMs, now), |o.deliveries|;
    var created := Take(o, global, create);
    TakeKeepsShape(o, global, create);
    NewIsLaddered(o, global, create);
    NewStartsAtItsJob(o, global, create);
    if NothingDue(Follow(created, global, steps), d, at)
       && at >= now + E.Max0(delayMs) + MostSum(PolicyFor(f, global).backoff, Ceiling(created.deliveries[d]) - 1)
    {
      FollowedIsFinishedInTime(created, global, steps, d, now + E.Max0(delayMs), at);
    }
  }

  lemma NewStartsAtItsJob(o: Outbox, global: RetryPolicy, step: Step)
    requires Shaped(o) && step.Create?
    ensures var created := Take(o, global, step);
            && |o.deliveries| < |created.deliveries|
            && FirstAt(created, |o.deliveries|, step.now + E.Max0(step.delayMs))
            && created.deliveries[|o.deliveries|].formatter == step.formatter
  {
    hide PolicyFor;
    var created := Take(o, global, step);
    assert forall j: nat :: OpenFor(created, j, |o.deliveries|) ==> j == |o.jobs|;
  }

  /** From its creation under the default policy: at most five sends, and an exhausted delivery made exactly five,
      the last between seven and a half and fifteen seconds after the first. */
  lemma TheDefaultLadder(o: Outbox, f: Formatter, delayMs: int, now: int, steps: seq<Step>)
    requires Shaped(o) && f.retry.None? && forall step <- steps :: LeavesAlone(step, |o.deliveries|)
    ensures Shaped(Take(o, DEFAULT_POLICY, Create(f, None, delayMs, now)))
    ensures var d, end := |o.deliveries|, Follow(Take(o, DEFAULT_POLICY, Create(f, None, delayMs, now)), DEFAULT_POLICY, steps);
            && d < |end.deliveries| && |end.sent[d]| <= 5
            && (end.deliveries[d].status == Exhausted ==> |end.sent[d]| == 5 && 7_500 <= end.sent[d][4] - end.sent[d][0] <= 15_000)
  {
    var create, d := Create(f, None, delayMs, now), |o.deliveries|;
    var created := Take(o, DEFAULT_POLICY, create);
    TakeKeepsShape(o, DEFAULT_POLICY, create);
    NewIsLaddered(o, DEFAULT_POLICY, create);
    assert created.deliveries[d].maxAttempts == 5 && created.deliveries[d].formatter == f;
    hide Take, Laddered, LeastSum, MostSum;
    TermsStay(created, DEFAULT_POLICY, steps, d);
    ExhaustionTakesTheLadder(created, DEFAULT_POLICY, steps, d);
    DefaultRungs();
  }

  lemma DefaultRungs()
    ensures LeastSum(DEFAULT_POLICY.backoff, 4) == 7_500 && MostSum(DEFAULT_POLICY.backoff, 4) == 15_000
  {
    var b := DEFAULT_POLICY.backoff;
    assert J.Pow2(1) == 2 && J.Pow2(2) == 4 && J.Pow2(3) == 8;
    assert Rung(b, 0) == 1_000 && Rung(b, 1) == 2_000 && Rung(b, 2) == 4_000 && Rung(b, 3) == 8_000;
    assert LeastSum(b, 1) == 500 && MostSum(b, 1) == 1_000;
    assert LeastSum(b, 2) == 1_500 && MostSum(b, 2) == 3_000;
    assert LeastSum(b, 3) == 3_500 && MostSum(b, 3) == 7_000;
  }

  /* ---------------------------- retried by hand ---------------------------- */

  function ManualRetries(steps: seq<Step>, d: nat): nat {
    if steps == [] then 0 else
    ManualRetries(steps[..|steps| - 1], d) + if LeavesAlone(steps[|steps| - 1], d) then 0 else 1
  }

  /** A delivery still open has an attempt left. */
  predicate Granted(o: Outbox, d: nat) {
    && d < |o.deliveries| == |o.sent|
    && (var x := o.deliveries[d];
        && x.attempt == |o.sent[d]| <= Ceiling(x)
        && (!Final(x.status) ==> x.attempt < Ceiling(x)))
  }

  lemma DeliverKeepsGrant(o: Outbox, global: RetryPolicy, d: nat, e: nat, endpoint: Endpoint, response: Response,
                          jitter: Fraction, now: int)
    requires Granted(o, d) && e < |o.deliveries|
    ensures var p := Deliver(o, global, e, endpoint, response, jitter, now);
            Granted(p, d) && Ceiling(p.deliveries[d]) == Ceiling(o.deliveries[d])
  {
    hide Delay, Classify, PolicyFor;
  }

  lemma RetryKeepsGrant(o: Outbox, global: RetryPolicy, d: nat, e: nat, endpoint: Endpoint, response: Response,
                        jitter: Fraction, now: int)
    requires Granted(o, d) && e < |o.deliveries|
    ensures var p := RetryNow(o, global, e, endpoint, response, jitter, now);
            Granted(p, d) && Ceiling(p.deliveries[d]) <= Ceiling(o.deliveries[d]) + if e == d then 1 else 0
  {
    hide Deliver;
    var x := o.deliveries[e];
    var granted := if x.maxAttempts > x.attempt + 1 then x.maxAttempts else x.attempt + 1;
    var q := o.(deliveries := o.deliveries[e := x.(status := Pending, maxAttempts := granted, nextRetryAt := Some(now))]);
    DeliverKeepsGrant(q, global, d, e, endpoint, response, jitter, now);
  }

  lemma TakeKeepsGrant(o: Outbox, global: RetryPolicy, step: Step, d: nat)
    requires Shaped(o) && Granted(o, d)
    ensures var p := Take(o, global, step);
            Granted(p, d)
            && Ceiling(p.deliveries[d]) <= Ceiling(o.deliveries[d]) + if LeavesAlone(step, d) then 0 else 1
  {
    hide Deliver, RetryNow, PolicyFor;
    match step
    case Run(j, endpoint, response, jitter) =>
      if Has(o, j, InHand) {
        DeliverKeepsGrant(SetStage(o, j, Over), global, d, o.jobs[j].delivery, endpoint, response, jitter, o.jobs[j].runAt);
      }
    case Again(e, endpoint, response, jitter, now) =>
      if e < |o.deliveries| { RetryKeepsGrant(o, global, d, e, endpoint, response, jitter, now); }
    case Create(_, _, _, _) =>
    case Claim(_) =>
    case Resend(_, _, _, _) =>
  }

  /** However it is pressed, each manual retry grants one more send and no more. */
  lemma {:induction false} EachManualRetryGrantsOneSend(o: Outbox, global: RetryPolicy, steps: seq<Step>, d: nat)
    requires Shaped(o) && Granted(o, d)
    ensures var end := Follow(o, global, steps);
            && Granted(end, d)
            && |end.sent[d]| <= Ceiling(end.deliveries[d])
            && Ceiling(end.deliveries[d]) <= Ceiling(o.deliveries[d]) + ManualRetries(steps, d)
  {
    hide Take;
    if steps != [] {
      EachManualRetryGrantsOneSend(o, global, steps[..|steps| - 1], d);
      TakeKeepsGrant(Follow(o, global, steps[..|steps| - 1]), global, steps[|steps| - 1], d);
    }
  }

  /* ---------------------------- what an answer does ---------------------------- */

  /** The subscriber's endpoint said so itself: a status from 200 to 299. */
  predicate Answered2xx(r: Response) { r.status.Some? && 200 <= r.status.value <= 299 }

  /** An attempt on this delivery reaches its endpoint. */
  predicate Sends(x: Delivery, endpoint: Endpoint) {
    x.status in {Pending, Delivering} && (x.formatter.followsEndpointChanges ==> endpoint == Enabled)
  }

  /** Another attempt after this one: retries are on, for the provider's own ladder too, and some are left. */
  predicate MoreToCome(x: Delivery, global: RetryPolicy) {
    && global.enabled && (x.formatter.retry.Some? ==> x.formatter.retry.value.enabled)
    && x.attempt + 1 < x.maxAttempts
  }

  /** The attempt ended the delivery, in this status and without another job. */
  predicate EndsAs(o: Outbox, p: Outbox, d: nat, status: Status)
    requires d < |p.deliveries|
  {
    p.deliveries[d].status == status && p.deliveries[d].nextRetryAt.None? && p.jobs == o.jobs
  }

  /** The attempt failed: one more job when another is to come, and otherwise the end. */
  predicate TriedInVain(o: Outbox, p: Outbox, global: RetryPolicy, d: nat)
    requires d < |o.deliveries| == |p.deliveries|
  {
    if MoreToCome(o.deliveries[d], global) then
      && p.deliveries[d].status == Pending && |p.jobs| == |o.jobs| + 1 && p.jobs[..|o.jobs|] == o.jobs
      && p.jobs[|o.jobs|].delivery == d && p.jobs[|o.jobs|].stage == Queued
    else EndsAs(o, p, d, Exhausted)
  }

  /** Only the delivery, its sends and new jobs change. */
  ghost predicate OnlyOf(o: Outbox, p: Outbox, d: nat)
    requires d < |o.deliveries| == |o.sent|
  {
    && |p.deliveries| == |o.deliveries| && p.deliveries == o.deliveries[d := p.deliveries[d]]
    && |p.sent| == |o.sent| && p.sent == o.sent[d := p.sent[d]]
    && p.deliveries[d].formatter == o.deliveries[d].formatter
  }

  /**
   * One attempt, by what came back. A provider that reads bodies may refuse a 2xx and never accept anything else; one
   * that classifies owns the whole decision, and it alone can stop a delivery.
   */
  lemma OneAttempt(o: Outbox, global: RetryPolicy, d: nat, endpoint: Endpoint, response: Response, jitter: Fraction, now: int)
    requires d < |o.deliveries| == |o.sent| && Sends(o.deliveries[d], endpoint)
    ensures var f, p := o.deliveries[d].formatter, Deliver(o, global, d, endpoint, response, jitter, now);
            && OnlyOf(o, p, d)
            && p.sent[d] == o.sent[d] + [now] && p.deliveries[d].attempt == o.deliveries[d].attempt + 1
            && p.deliveries[d].maxAttempts == o.deliveries[d].maxAttempts
            && (f.classify.None? && f.interpret.None? ==>
                  if Answered2xx(response) then EndsAs(o, p, d, Succeeded) else TriedInVain(o, p, global, d))
            && (f.classify.None? && f.interpret.Some? ==>
                  if Answered2xx(response) && f.interpret.value(response) then EndsAs(o, p, d, Succeeded)
                  else TriedInVain(o, p, global, d))
            && (f.classify.Some? ==>
                  match f.classify.value(response)
                  case Delivered => EndsAs(o, p, d, Succeeded)
                  case Stop => EndsAs(o, p, d, Failed)
                  case Retry => TriedInVain(o, p, global, d))
  {
    hide Delay;
  }

  /** A delivery that has ended is left alone; one whose endpoint is gone, where the provider minds, fails unsent. */
  lemma NoAttempt(o: Outbox, global: RetryPolicy, d: nat, endpoint: Endpoint, response: Response, jitter: Fraction, now: int)
    requires d < |o.deliveries| == |o.sent| && !Sends(o.deliveries[d], endpoint)
    ensures var p := Deliver(o, global, d, endpoint, response, jitter, now);
            && OnlyOf(o, p, d) && p.sent == o.sent && p.jobs == o.jobs
            && if o.deliveries[d].status in {Pending, Delivering} then p.deliveries[d].status == Failed else p == o
  {
  }

  /** Doubled from a base with every attempt, up to a cap. */
  predicate Doubled(rung: int, base: int, cap: int, n: nat) {
    rung <= base * J.Pow2(n) && rung <= cap && (rung == base * J.Pow2(n) || rung == cap)
  }

  /** From half of the rung, with no jitter, to all of it, to the nearest millisecond. */
  predicate Jittered(wait: int, rung: int, jitter: Fraction) {
    -0.5 < wait as real - rung as real * (1.0 + jitter) / 2.0 <= 0.5
  }

  ghost predicate WaitsAs(b: Backoff, n: nat, jitter: Fraction, wait: int) {
    match b
    case Exponential(base, cap) => exists rung :: Doubled(rung, base, cap, n) && Jittered(wait, rung, jitter)
    case FixedInterval(ms) => wait >= 0 && wait >= ms && (wait == 0 || wait == ms)
    case Immediate => wait == 0
  }

  lemma RungDoubles(base: nat, cap: nat, i: nat)
    ensures var rung := Rung(Exponential(base, cap), i); rung >= 0 && Doubled(rung, base, cap, i)
  {
    Pow2IsPositive(i);
    assert base * J.Pow2(i) >= 0;
  }

  lemma NearestWait(rung: nat, jitter: Fraction)
    ensures var wait := Round(Spread(rung, jitter)); wait >= 0 && Jittered(wait, rung, jitter)
  {
    hide Round;
    JitterBounds(rung, jitter);
    RoundIsNearest(Spread(rung, jitter));
    HalfAndHalf(rung as real, jitter);
  }

  lemma DelayWaits(b: Backoff, i: nat, jitter: Fraction)
    ensures WaitsAs(b, i, jitter, E.Max0(Delay(b, i, jitter)))
  {
    hide Round, Spread, Doubled, Jittered;
    if b.Exponential? {
      assert b == Exponential(b.baseMs, b.maxMs);
      RungDoubles(b.baseMs, b.maxMs, i);
      var rung := Rung(b, i);
      NearestWait(rung, jitter);
      assert Doubled(rung, b.baseMs, b.maxMs, i) && Jittered(E.Max0(Delay(b, i, jitter)), rung, jitter);
    }
  }

  /** How long a further attempt waits: by the provider's own ladder where it has one, doubled with every attempt and then
      jittered, or flat, or not at all. */
  lemma WaitsItsRung(o: Outbox, global: RetryPolicy, d: nat, endpoint: Endpoint, response: Response, jitter: Fraction, now: int)
    requires d < |o.deliveries| == |o.sent| && Sends(o.deliveries[d], endpoint)
    requires Deliver(o, global, d, endpoint, response, jitter, now).deliveries[d].status == Pending
    ensures var x, p := o.deliveries[d], Deliver(o, global, d, endpoint, response, jitter, now);
            && |p.jobs| == |o.jobs| + 1 && p.deliveries[d].nextRetryAt.Some?
            && p.jobs[|o.jobs|].runAt == (if p.deliveries[d].nextRetryAt.value < now then now else p.deliveries[d].nextRetryAt.value)
            && WaitsAs(if x.formatter.retry.Some? then x.formatter.retry.value.backoff else global.backoff,
                       x.attempt, jitter, p.jobs[|o.jobs|].runAt - now)
  {
    hide Delay, WaitsAs;
    var x := o.deliveries[d];
    DelayWaits(PolicyFor(x.formatter, global).backoff, x.attempt, jitter);
  }

  lemma RoundIsNearest(x: real)
    ensures -0.5 < Round(x) as real - x <= 0.5
  {
  }

  lemma HalfAndHalf(raw: real, jitter: real)
    ensures raw * (0.5 + 0.5 * jitter) == raw * (1.0 + jitter) / 2.0
  {
  }

  /* ---------------------------- how a run ends ---------------------------- */

  /** What came back for each send of a delivery during a run. */
  function Answers(o: Outbox, global: RetryPolicy, steps: seq<Step>, d: nat): seq<Response>
    requires Shaped(o) && d < |o.deliveries|
  {
    if steps == [] then [] else
    var before, step := Follow(o, global, steps[..|steps| - 1]), steps[|steps| - 1];
    Answers(o, global, steps[..|steps| - 1], d)
    + if (step.Run? || step.Again?) && |Take(before, global, step).sent[d]| > |before.sent[d]| then [step.response] else []
  }

  /** The provider has no rules of its own for what comes back. */
  predicate Plain(f: Formatter) { f.classify.None? && f.interpret.None? }

  ghost predicate Some2xx(answers: seq<Response>) { exists r <- answers :: Answered2xx(r) }

  lemma OneStepAnswers(o: Outbox, global: RetryPolicy, step: Step, d: nat)
    requires Laddered(o, global, d) && LeavesAlone(step, d) && Plain(o.deliveries[d].formatter)
    ensures var p := Take(o, global, step);
            && Shaped(p) && d < |p.deliveries|
            && (if (step.Run? || step.Again?) && |p.sent[d]| > |o.sent[d]| then
                  && |p.sent[d]| == |o.sent[d]| + 1 && o.deliveries[d].status == Pending
                  && (Answered2xx(step.response) <==> p.deliveries[d].status == Succeeded)
                else
                  && |p.sent[d]| == |o.sent[d]|
                  && (p.deliveries[d].status == o.deliveries[d].status
                      || (o.deliveries[d].status == Pending && p.deliveries[d].status == Failed)))
  {
    TakeKeepsShape(o, global, step);
    hide Spaced, Timely, PolicyFor, Deliver, Ceiling;
    if step.Run? && Has(o, step.job, InHand) && o.jobs[step.job].delivery == d {
      assert OpenFor(o, step.job, d);
      TakenJobLeavesNone(o, step.job, d);
      var taken := SetStage(o, step.job, Over);
      if Sends(taken.deliveries[d], step.endpoint) {
        OneAttempt(taken, global, d, step.endpoint, step.response, step.jitter, o.jobs[step.job].runAt);
      } else {
        NoAttempt(taken, global, d, step.endpoint, step.response, step.jitter, o.jobs[step.job].runAt);
      }
    } else {
      OneOpenJobExists(o, d);
      OthersAreUntouched(o, global, step, d);
      hide Take;
    }
  }

  /**
   * Over any run that does not retry it by hand, a plain delivery has succeeded exactly when one of its sends was
   * answered with a status from 200 to 299; one that is still pending or exhausted was answered otherwise, or not at all,
   * every time.
   */
  lemma {:induction false} SucceedsExactlyWhenAnswered(o: Outbox, global: RetryPolicy, steps: seq<Step>, d: nat)
    requires Shaped(o) && Laddered(o, global, d) && forall step <- steps :: LeavesAlone(step, d)
    requires d < |o.deliveries| && o.deliveries[d].status == Pending && Plain(o.deliveries[d].formatter)
    ensures var end, answers := Follow(o, global, steps), Answers(o, global, steps, d);
            && d < |end.deliveries| && |end.sent[d]| == |o.sent[d]| + |answers|
            && (end.deliveries[d].status == Succeeded <==> Some2xx(answers))
  {
    hide Take, Laddered;
    if steps != [] {
      var n := |steps| - 1;
      var before, earlier := Follow(o, global, steps[..n]), Answers(o, global, steps[..n], d);
      SucceedsExactlyWhenAnswered(o, global, steps[..n], d);
      LadderHolds(o, global, steps[..n], d);
      TermsStay(o, global, steps[..n], d);
      OneStepAnswers(before, global, steps[n], d);
      if Answers(o, global, steps, d) != earlier {
        assert Answers(o, global, steps, d) == earlier + [steps[n].response];
      }
    }
  }

  /** From its creation: a plain delivery that is exhausted made every send it was allowed, none of them answered so. */
  lemma ExhaustedUnanswered(o: Outbox, global: RetryPolicy, create: Step, steps: seq<Step>)
    requires Shaped(o) && create.Create? && Plain(create.formatter)
    requires forall step <- steps :: LeavesAlone(step, |o.deliveries|)
    ensures Shaped(Take(o, global, create)) && |Take(o, global, create).deliveries| == |o.deliveries| + 1
    ensures var d, created := |o.deliveries|, Take(o, global, create);
            var end, answers := Follow(created, global, steps), Answers(created, global, steps, d);
            && d < |end.deliveries| && |end.sent[d]| == |answers|
            && (end.deliveries[d].status == Succeeded <==> Some2xx(answers))
            && (end.deliveries[d].status == Exhausted ==>
                  && answers != [] && !Some2xx(answers)
                  && |answers| == if PolicyFor(create.formatter, global).enabled then Ceiling(end.deliveries[d]) else 1)
  {
    TakeKeepsShape(o, global, create);
    NewIsLaddered(o, global, create);
    var d, created := |o.deliveries|, Take(o, global, create);
    assert |created.deliveries| == d + 1 && created.sent[d] == [];
    assert created.deliveries[d].status == Pending && created.deliveries[d].formatter == create.formatter;
    hide Take, Laddered, Spaced;
    SucceedsExactlyWhenAnswered(created, global, steps, d);
    TermsStay(created, global, steps, d);
    ExhaustionTakesTheLadder(created, global, steps, d);
  }

  /* ---------------------------- what is granted ---------------------------- */

  /** The attempts a new delivery has: its ladder's, or one with retries off, and no more than the caller asks for. */
  lemma NewDelivery(o: Outbox, global: RetryPolicy, f: Formatter, override: Option<int>, delayMs: int, now: int)
    requires Shaped(o)
    ensures var created, d := Take(o, global, Create(f, override, delayMs, now)), |o.deliveries|;
            && created.deliveries[..d] == o.deliveries && |created.deliveries| == d + 1
            && created.jobs[..|o.jobs|] == o.jobs && |created.jobs| == |o.jobs| + 1
            && created.sent == o.sent + [[]]
            && (var x, job := created.deliveries[d], created.jobs[|o.jobs|];
                var ladder := if !global.enabled then 1
                              else if f.retry.None? then global.maxAttempts
                              else if f.retry.value.enabled then f.retry.value.maxAttempts else 1;
                && x.formatter == f && x.status == Pending && x.attempt == 0 && x.nextRetryAt.None?
                && x.maxAttempts <= ladder && (override.Some? ==> x.maxAttempts <= override.value)
                && (x.maxAttempts == ladder || override == Some(x.maxAttempts))
                && job.delivery == d && job.stage == Queued
                && job.runAt >= now && job.runAt >= now + delayMs && (job.runAt == now || job.runAt == now + delayMs))
  {
  }

  /** A retry by hand makes one attempt at once, whatever the ladder says; a replay is a delivery of its own. */
  lemma RetriedByHandIsSent(o: Outbox, global: RetryPolicy, d: nat, endpoint: Endpoint, response: Response, jitter: Fraction, now: int)
    requires Shaped(o) && d < |o.deliveries| && (o.deliveries[d].formatter.followsEndpointChanges ==> endpoint == Enabled)
    ensures var x, p := o.deliveries[d], Take(o, global, Again(d, endpoint, response, jitter, now));
            && |p.deliveries| == |o.deliveries| == |p.sent|
            && p.sent[d] == o.sent[d] + [now] && p.deliveries[d].attempt == x.attempt + 1
            && p.deliveries[d].maxAttempts >= x.maxAttempts && p.deliveries[d].maxAttempts >= x.attempt + 1
            && (p.deliveries[d].maxAttempts == x.maxAttempts || p.deliveries[d].maxAttempts == x.attempt + 1)
            && (Plain(x.formatter) ==> (p.deliveries[d].status == Succeeded <==> Answered2xx(response)))
  {
    hide Deliver;
    var x := o.deliveries[d];
    var granted := if x.maxAttempts > x.attempt + 1 then x.maxAttempts else x.attempt + 1;
    var q := o.(deliveries := o.deliveries[d := x.(status := Pending, maxAttempts := granted, nextRetryAt := Some(now))]);
    OneAttempt(q, global, d, endpoint, response, jitter, now);
  }

  lemma ReplayedAnew(o: Outbox, global: RetryPolicy, d: nat, override: Option<int>, latencyMs: int, now: int)
    requires Shaped(o) && d < |o.deliveries|
    ensures var p, x := Take(o, global, Resend(d, override, latencyMs, now)), o.deliveries[d];
            && |p.deliveries| == |o.deliveries| + 1 && p.deliveries[..|o.deliveries|] == o.deliveries
            && |p.jobs| == |o.jobs| + 1 && p.jobs[..|o.jobs|] == o.jobs && p.sent == o.sent + [[]]
            && (var copy, job := p.deliveries[|o.deliveries|], p.jobs[|o.jobs|];
                && copy.formatter == x.formatter && copy.status == Pending && copy.attempt == 0
                && copy.maxAttempts <= x.maxAttempts && (override.Some? ==> copy.maxAttempts <= override.value)
                && (copy.maxAttempts == x.maxAttempts || override == Some(copy.maxAttempts))
                && job.delivery == |o.deliveries| && job.stage == Queued
                && job.runAt >= now && job.runAt >= now + latencyMs && (job.runAt == now || job.runAt == now + latencyMs))
  {
  }
}
