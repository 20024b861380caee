/**
 The delivery side: the webhook, the two history tables, the queue worker and its retries.
 The webhook and the inserts answer as an `Outcome` says; everything else is decided here.
 */
module Alerts {
  import opened Common

  datatype JobData = JobData(service: string, count: nat, threshold: nat, windowMs: nat, windowStart: int)

  /** `id` only traces a row back to the check that caused it; the program stores no such column. */
  datatype Job = Job(id: nat, data: JobData)

  datatype IdempotencyKey = IdempotencyKey(service: string, windowStart: int)

  datatype AlertRow = AlertRow(job: nat, service: string, count: nat, threshold: nat, windowMs: nat)
  datatype FailureRow = FailureRow(job: nat, service: string, payload: JobData, attempts: nat)

  /** The `alerts` and `alert_failures` tables, and the requests the webhook has accepted so far. */
  datatype Tables = Tables(alerts: seq<AlertRow>, failures: seq<FailureRow>, accepted: seq<IdempotencyKey>)

  /** How the outside world answers one `dispatch`; a refused webhook is a non-2xx reply, an error or a timeout. */
  datatype Outcome = Outcome(webhookAccepts: bool, insertOk: bool)

  const WEBHOOK_TIMEOUT_MS: nat := 5000
  const FIRST_BACKOFF_MS: nat := 1000

  function KeyOf(d: JobData): IdempotencyKey {
    IdempotencyKey(d.service, d.windowStart)
  }

  function RowOf(job: Job): AlertRow {
    AlertRow(job.id, job.data.service, job.data.count, job.data.threshold, job.data.windowMs)
  }

  function FailureOf(job: Job, attempts: nat): FailureRow {
    FailureRow(job.id, job.data.service, job.data, attempts)
  }

  /** Does this `dispatch` resolve rather than throw? */
  predicate Dispatches(webhook: bool, o: Outcome) {
    (webhook ==> o.webhookAccepts) && o.insertOk
  }

  /** What one `dispatch` leaves behind, thrown or not: an accepted request stays sent even when the insert fails. */
  function AfterDispatch(webhook: bool, t: Tables, job: Job, o: Outcome): Tables {
    t.(accepted := t.accepted + if webhook && o.webhookAccepts then [KeyOf(job.data)] else [],
       alerts := t.alerts + if Dispatches(webhook, o) then [RowOf(job)] else [])
  }

  function AfterFailureRecord(t: Tables, job: Job, attempts: nat, insertOk: bool): Tables {
    t.(failures := t.failures + if insertOk then [FailureOf(job, attempts)] else [])
  }

  function AfterDirect(webhook: bool, t: Tables, job: Job, o: Outcome, failureInsertOk: bool): Tables {
    var t1 := AfterDispatch(webhook, t, job, o);
    if Dispatches(webhook, o) then t1 else AfterFailureRecord(t1, job, 1, failureInsertOk)
  }

  /** Where a queued job stands after a delivery attempt. */
  datatype JobState = Waiting(made: nat) | Completed | Exhausted(recorded: bool)

  function NextJobState(webhook: bool, max: nat, made: nat, o: Outcome, failureInsertOk: bool): JobState {
    if Dispatches(webhook, o) then Completed
    else if made + 1 < max then Waiting(made + 1)
    else Exhausted(failureInsertOk)
  }

  function AfterAttempt(webhook: bool, max: nat, t: Tables, job: Job, made: nat, o: Outcome, failureInsertOk: bool): Tables {
    var t1 := AfterDispatch(webhook, t, job, o);
    if NextJobState(webhook, max, made, o, failureInsertOk).Exhausted?
    then AfterFailureRecord(t1, job, made + 1, failureInsertOk)
    else t1
  }

  class AlertsService {
    const webhook: bool  // is WEBHOOK_URL set?
    var alerts: seq<AlertRow>
    var failures: seq<FailureRow>
    var accepted: seq<IdempotencyKey>

    ghost function Stored(): Tables
      reads this
    {
      Tables(alerts, failures, accepted)
    }

    constructor (webhook: bool)
      ensures this.webhook == webhook
      ensures Stored() == Tables([], [], [])
    {
      this.webhook := webhook;
      alerts, failures, accepted := [], [], [];
    }

    /** Posts to the webhook when there is one, then stores the row; `thrown` is the rejected promise. */
    method Dispatch(job: Job, o: Outcome) returns (thrown: bool)
      modifies this
      ensures thrown <==> !o.insertOk || (webhook && !o.webhookAccepts)
      ensures alerts == old(alerts) + if thrown then []
              else [AlertRow(job.id, job.data.service, job.data.count, job.data.threshold, job.data.windowMs)]
      ensures accepted == old(accepted) + if webhook && o.webhookAccepts
              then [IdempotencyKey(job.data.service, job.data.windowStart)] else []
      ensures Stored() == AfterDispatch(webhook, old(Stored()), job, o)
    {
      if webhook {
        if !o.webhookAccepts {
          return true;
        }
        accepted := accepted + [KeyOf(job.data)];
      }
      if !o.insertOk {
        return true;
      }
      alerts := alerts + [RowOf(job)];
      thrown := false;
    }

    method RecordFailure(job: Job, attempts: nat, insertOk: bool) returns (thrown: bool)
      modifies this
      ensures thrown <==> !insertOk
      ensures failures == old(failures) + if insertOk then [FailureRow(job.id, job.data.service, job.data, attempts)] else []
      ensures Stored() == AfterFailureRecord(old(Stored()), job, attempts, insertOk)
    {
      if !insertOk {
        return true;
      }
      failures := failures + [FailureOf(job, attempts)];
      thrown := false;
    }

    /** One try outside the queue; it never throws, and `lost` says that even the failure record was lost. */
    method DispatchDirect(job: Job, o: Outcome, failureInsertOk: bool) returns (lost: bool)
      modifies this
      ensures var sent := o.insertOk && (webhook ==> o.webhookAccepts);
        && (lost <==> !sent && !failureInsertOk)
        && alerts == old(alerts) + (if sent then [RowOf(job)] else [])
        && failures == old(failures) + (if !sent && failureInsertOk then [FailureOf(job, 1)] else [])
      ensures Stored() == AfterDirect(webhook, old(Stored()), job, o, failureInsertOk)
    {
      var thrown := Dispatch(job, o);
      lost := false;
      if thrown {
        lost := RecordFailure(job, 1, failureInsertOk);
      }
    }
  }

  class AlertsProcessor {
    const alerts: AlertsService

    constructor (alerts: AlertsService)
      ensures this.alerts == alerts
    {
      this.alerts := alerts;
    }

    method Process(job: Job, o: Outcome) returns (thrown: bool)
      modifies alerts
      ensures thrown <==> !o.insertOk || (alerts.webhook && !o.webhookAccepts)
      ensures alerts.Stored() == AfterDispatch(alerts.webhook, old(alerts.Stored()), job, o)
    {
      thrown := alerts.Dispatch(job, o);
    }

    /** The queue's "failed" event; `maxAttempts` is the job option, 1 when it was left out. */
    method OnFailed(job: Job, attemptsMade: nat, maxAttempts: Option<nat>, insertOk: bool)
      modifies alerts
      ensures var max := match maxAttempts case Some(n) => n case None => 1;
        alerts.Stored() == if attemptsMade < max then old(alerts.Stored())
                           else AfterFailureRecord(old(alerts.Stored()), job, attemptsMade, insertOk)
    {
      var max := match maxAttempts case Some(n) => n case None => 1;
      if attemptsMade < max {
        return;
      }
      var _ := alerts.RecordFailure(job, attemptsMade, insertOk);
    }

    /** One attempt as the queue drives it: `process`, and on a throw the "failed" event with the raised counter. */
    method Attempt(job: Job, made: nat, max: nat, o: Outcome, failureInsertOk: bool) returns (s: JobState)
      requires made < max
      modifies alerts
      ensures var sent := o.insertOk && (alerts.webhook ==> o.webhookAccepts);
        s == if sent then Completed else if made + 1 < max then Waiting(made + 1) else Exhausted(failureInsertOk)
      ensures s == NextJobState(alerts.webhook, max, made, o, failureInsertOk)
      ensures alerts.Stored() == AfterAttempt(alerts.webhook, max, old(alerts.Stored()), job, made, o, failureInsertOk)
    {
      var thrown := Process(job, o);
      if !thrown {
        return Completed;
      }
      OnFailed(job, made + 1, Some(max), failureInsertOk);
      s := if made + 1 < max then Waiting(made + 1) else Exhausted(failureInsertOk);
    }
  }

  /** One attempt of a job's life: the answers, the time spent on the webhook and the wait that follows a failure. */
  datatype Try = Try(outcome: Outcome, failureInsertOk: bool, webhookMs: nat, waitMs: nat)

  datatype Life = Life(tables: Tables, end: JobState, attempts: nat, webhookMs: nat, waitedMs: nat)

  /** A queued job from its `made`-th attempt on, when the world answers as `tries` says. */
  function Live(webhook: bool, max: nat, t: Tables, job: Job, made: nat, tries: seq<Try>): Life
    requires made < max <= |tries|
    decreases max - made
  {
    var r := tries[made];
    var t1 := AfterAttempt(webhook, max, t, job, made, r.outcome, r.failureInsertOk);
    match NextJobState(webhook, max, made, r.outcome, r.failureInsertOk)
    case Waiting(n) =>
      var rest := Live(webhook, max, t1, job, n, tries);
      rest.(webhookMs := r.webhookMs + rest.webhookMs, waitedMs := r.waitMs + rest.waitedMs)
    case end => Life(t1, end, made + 1, r.webhookMs, 0)
  }

  /** How many of the tries `from..to` reached a webhook that accepted them. */
  function Deliveries(webhook: bool, tries: seq<Try>, from: nat, to: nat): nat
    requires from <= to <= |tries|
    decreases (to as int) - (from as int)
  {
    if from == to then 0
    else (if webhook && tries[from].outcome.webhookAccepts then 1 else 0) + Deliveries(webhook, tries, from + 1, to)
  }

  function Repeated<T>(x: T, n: nat): (r: seq<T>)
    ensures |r| == n && forall i :: 0 <= i < n ==> r[i] == x
  {
    seq(n, _ => x)
  }

  /**
   The retry machine. A job stops at its first attempt that dispatches, or after the last one: it leaves one `alerts`
   row in the first case and none in the second, where a failure row with the full attempt count is written unless that
   insert fails too.
   */
  lemma {:induction false} JobLeavesOneTrace(webhook: bool, max: nat, t: Tables, job: Job, made: nat, tries: seq<Try>)
    requires made < max <= |tries|
    ensures var l := Live(webhook, max, t, job, made, tries); var d := job.data;
      && made < l.attempts <= max
      && (forall k :: made <= k < l.attempts - 1 ==> !tries[k].outcome.insertOk || (webhook && !tries[k].outcome.webhookAccepts))
      && (l.end.Completed? <==> tries[l.attempts - 1].outcome.insertOk && (webhook ==> tries[l.attempts - 1].outcome.webhookAccepts))
      && (l.end.Completed? || (l.attempts == max && l.end == Exhausted(tries[max - 1].failureInsertOk)))
      && l.tables.alerts == t.alerts
         + (if l.end.Completed? then [AlertRow(job.id, d.service, d.count, d.threshold, d.windowMs)] else [])
      && l.tables.failures == t.failures + (if l.end == Exhausted(true) then [FailureRow(job.id, d.service, d, max)] else [])
    decreases max - made
  {
    var r := tries[made];
    if NextJobState(webhook, max, made, r.outcome, r.failureInsertOk).Waiting? {
      JobLeavesOneTrace(webhook, max, AfterAttempt(webhook, max, t, job, made, r.outcome, r.failureInsertOk), job, made + 1, tries);
    }
  }

  /**
   What the receiver saw of a job: one accepted request per attempt that reached it, all under the one idempotency key,
   and at least one behind an `alerts` row.
   */
  lemma {:induction false} JobDeliveries(webhook: bool, max: nat, t: Tables, job: Job, made: nat, tries: seq<Try>)
    requires made < max <= |tries|
    ensures var l := Live(webhook, max, t, job, made, tries);
      && made < l.attempts <= max
      && l.tables.accepted == t.accepted + Repeated(KeyOf(job.data), Deliveries(webhook, tries, made, l.attempts))
      && (webhook && l.end.Completed? ==> Deliveries(webhook, tries, made, l.attempts) >= 1)
      && (!webhook ==> l.tables.accepted == t.accepted)
    decreases max - made
  {
    var r := tries[made];
    var key := KeyOf(job.data);
    var t1 := AfterAttempt(webhook, max, t, job, made, r.outcome, r.failureInsertOk);
    var here := Deliveries(webhook, tries, made, made + 1);
    assert Deliveries(webhook, tries, made + 1, made + 1) == 0;
    assert t1.accepted == t.accepted + Repeated(key, here) by {
      assert Repeated(key, here) == if webhook && r.outcome.webhookAccepts then [key] else [];
    }
    if NextJobState(webhook, max, made, r.outcome, r.failureInsertOk).Waiting? {
      JobDeliveries(webhook, max, t1, job, made + 1, tries);
      var later := Deliveries(webhook, tries, made + 1, Live(webhook, max, t1, job, made + 1, tries).attempts);
      AppendRepeated(t.accepted, key, here, later);
    }
  }

  lemma AppendRepeated<T>(s: seq<T>, x: T, m: nat, n: nat)
    ensures s + Repeated(x, m) + Repeated(x, n) == s + Repeated(x, m + n)
  {
  }

  function Pow2(n: nat): (p: nat)
    ensures p >= 1
  {
    if n == 0 then 1 else 2 * Pow2(n - 1)
  }

  /** Exponential back-off with a jitter that shortens each wait by at most a fifth; the webhook call has its own limit. */
  predicate Paced(max: nat, tries: seq<Try>) {
    && (forall k :: 0 <= k < |tries| ==> tries[k].webhookMs <= WEBHOOK_TIMEOUT_MS)
    && (forall k: nat :: k + 1 < max && k < |tries| ==> PacedTry(tries[k], k))
  }

  predicate PacedTry(r: Try, k: nat) {
    4 * FIRST_BACKOFF_MS * Pow2(k) <= 5 * r.waitMs <= 5 * FIRST_BACKOFF_MS * Pow2(k)
  }

  /** The times of a life that began after `made` attempts: the waits double, so they add up to a power of two less one. */
  predicate PacedLife(l: Life, made: nat)
    requires l.attempts >= 1
  {
    && l.webhookMs <= WEBHOOK_TIMEOUT_MS * (l.attempts - made)
    && 4 * FIRST_BACKOFF_MS * (Pow2(l.attempts - 1) - Pow2(made)) <= 5 * l.waitedMs
    && l.waitedMs <= FIRST_BACKOFF_MS * (Pow2(l.attempts - 1) - Pow2(made))
  }

  /** The delay of a job over all its attempts. */
  lemma {:induction false} JobTiming(webhook: bool, max: nat, t: Tables, job: Job, made: nat, tries: seq<Try>)
    requires made < max <= |tries| && Paced(max, tries)
    ensures var l := Live(webhook, max, t, job, made, tries);
      made < l.attempts && PacedLife(l, made)
    decreases max - made
  {
    var r := tries[made];
    if NextJobState(webhook, max, made, r.outcome, r.failureInsertOk).Waiting? {
      var t1 := AfterAttempt(webhook, max, t, job, made, r.outcome, r.failureInsertOk);
      JobTiming(webhook, max, t1, job, made + 1, tries);
      OneMoreWait(Live(webhook, max, t, job, made, tries), Live(webhook, max, t1, job, made + 1, tries), r, made);
    }
  }

  lemma OneMoreWait(l: Life, rest: Life, r: Try, made: nat)
    requires made + 1 < rest.attempts == l.attempts
    requires PacedLife(rest, made + 1) && PacedTry(r, made) && r.webhookMs <= WEBHOOK_TIMEOUT_MS
    requires l.webhookMs == r.webhookMs + rest.webhookMs && l.waitedMs == r.waitMs + rest.waitedMs
    ensures PacedLife(l, made)
  {
  }

  /** With the five attempts of the program, an exhausted job waited between 12 and 15 seconds. */
  lemma FiveAttemptsTiming(webhook: bool, t: Tables, job: Job, tries: seq<Try>)
    requires 5 <= |tries| && forall k :: 0 <= k < |tries| ==> tries[k].webhookMs <= 5000
    requires 800 <= tries[0].waitMs <= 1000 && 1600 <= tries[1].waitMs <= 2000
    requires 3200 <= tries[2].waitMs <= 4000 && 6400 <= tries[3].waitMs <= 8000
    ensures var l := Live(webhook, 5, t, job, 0, tries);
      && l.webhookMs <= 25000
      && l.waitedMs <= 15000
      && (!l.end.Completed? ==> l.waitedMs >= 12000)
  {
    assert Pow2(4) == 16 && Pow2(3) == 8 && Pow2(2) == 4 && Pow2(1) == 2 && Pow2(0) == 1;
    assert Paced(5, tries);
    JobTiming(webhook, 5, t, job, 0, tries);
    JobLeavesOneTrace(webhook, 5, t, job, 0, tries);
    var l := Live(webhook, 5, t, job, 0, tries);
    assert l.attempts - 1 == 0 || l.attempts - 1 == 1 || l.attempts - 1 == 2 || l.attempts - 1 == 3 || l.attempts - 1 == 4;
  }
}
