/** Runs of the alert protocol in time: the memory cooldown under stale clocks, the cadence of grants, the alert keys. */
module ProtocolTiming {
  import opened Common
  import opened Alerts
  import opened Protocol
  import opened Histories
  import opened ProtocolInvariants
  import opened ProtocolAccounts

  // ---------------------------------------------------------------- the memory cooldown

  lemma LocalGrows(cfg: Config, s: State, e: Event, v: Service)
    requires cfg.Valid() && Enabled(cfg, s, e) && v in s.mem.local
    ensures v in Apply(cfg, s, e).mem.local && s.mem.local[v] <= Apply(cfg, s, e).mem.local[v]
  {
    match e
    case CountReply(id, n) =>
      var c := CountReplyShape(cfg, s, id, n);
    case SetFailure(id) =>
      var c := SetFailureShape(cfg, s, id);
    case EnqueueRejected(id) => RejectionShape(cfg, s, id);
    case _ => StepFramed(cfg, s, e);
  }

  ghost predicate EntryGrows(s: State, t: State, v: Service) {
    v in s.mem.local ==> v in t.mem.local && s.mem.local[v] <= t.mem.local[v]
  }

  ghost predicate StepsGrow(states: seq<State>, v: Service) {
    forall k :: 0 < k < |states| ==> EntryGrows(states[k - 1], states[k], v)
  }

  lemma RunGrows(cfg: Config, states: seq<State>, events: seq<Event>, v: Service)
    requires Run(cfg, states, events)
    ensures StepsGrow(states, v)
  {
    forall k | 0 < k < |states| ensures EntryGrows(states[k - 1], states[k], v) {
      assert Enabled(cfg, states[k - 1], events[k - 1]) && states[k] == Apply(cfg, states[k - 1], events[k - 1]);
      if v in states[k - 1].mem.local {
        LocalGrows(cfg, states[k - 1], events[k - 1], v);
      }
    }
  }

  lemma {:induction false} GrowsThroughout(states: seq<State>, i: nat, j: nat, v: Service)
    requires StepsGrow(states, v) && i <= j < |states|
    ensures EntryGrows(states[i], states[j], v)
    decreases j - i
  {
    if i < j {
      GrowsThroughout(states, i, j - 1, v);
      assert EntryGrows(states[j - 1], states[j], v);
    }
  }

  /** An entry of the memory cooldown never goes back, although checks arrive with stale clocks and out of order. */
  lemma LocalEntriesNeverDecrease(cfg: Config, states: seq<State>, events: seq<Event>, i: nat, j: nat, v: Service)
    requires Run(cfg, states, events) && i <= j < |states| && v in states[i].mem.local
    ensures v in states[j].mem.local && states[i].mem.local[v] <= states[j].mem.local[v]
  {
    RunGrows(cfg, states, events, v);
    GrowsThroughout(states, i, j, v);
  }

  /** In the order they were made, the direct sends of a service have stamps a cooldown apart; the wall clock may lose the latency. */
  lemma DirectSendsApart(cfg: Config, states: seq<State>, events: seq<Event>, i: nat, k: nat, l: nat)
    requires Run(cfg, states, events) && i < |states|
    requires k < l < |states[i].mem.direct| && states[i].mem.direct[k].service == states[i].mem.direct[l].service
    ensures var d, e := states[i].mem.direct[k], states[i].mem.direct[l];
      d.stamp + cfg.cooldown <= e.stamp && d.firedAt + cfg.cooldown <= e.firedAt + cfg.latency
  {
    RunKeepsInv(cfg, states, events, i);
    SendsApart(cfg, states[i], k, l);
  }

  lemma SendsApart(cfg: Config, s: State, k: nat, l: nat)
    requires DirectOk(cfg, s)
    requires k < l < |s.mem.direct| && s.mem.direct[k].service == s.mem.direct[l].service
    ensures var d, e := s.mem.direct[k], s.mem.direct[l];
      d.stamp + cfg.cooldown <= e.stamp && d.firedAt + cfg.cooldown <= e.firedAt + cfg.latency
  {
    assert StampsSpaced(s.mem.direct, s.mem.direct[k].service, cfg.cooldown);
  }

  // ---------------------------------------------------------------- cadence of the Redis cooldown

  /** No live key of `v` is destroyed between the two entries. */
  ghost predicate NoLoss(log: seq<LockEvent>, v: Service, a: int, b: int) {
    forall i :: 0 <= i < |log| && a < i < b ==> !(log[i].Wiped? && v in log[i].live)
  }

  ghost predicate IsLock(log: seq<LockEvent>, v: Service, a: int) {
    0 <= a < |log| && log[a].Acquired? && log[a].service == v
  }

  lemma {:induction false} LockSurvives(log: seq<LockEvent>, v: Service, a: nat)
    requires LogOrdered(log) && IsLock(log, v, a) && NoLoss(log, v, a, |log|)
    ensures LastLock(log, v).Some? && log[a].at <= LastLock(log, v).value
  {
    var before := log[..|log| - 1];
    if a < |before| && !(log[|before|].Acquired? && log[|before|].service == v) {
      assert NoLoss(before, v, a, |before|);
      LockSurvives(before, v, a);
    }
  }

  lemma {:induction false} LocksApart(log: seq<LockEvent>, v: Service, c: nat, a: nat, b: nat)
    requires LogOrdered(log) && Spaced(log, v, c) && a < b && IsLock(log, v, a) && IsLock(log, v, b) && NoLoss(log, v, a, b)
    ensures log[a].at + c <= log[b].at
  {
    var before := log[..|log| - 1];
    if b == |before| {
      assert NoLoss(before, v, a, |before|);
      LockSurvives(before, v, a);
    } else {
      LocksApart(before, v, c, a, b);
    }
  }

  lemma LockIndex(log: seq<LockEvent>, e: LockEvent) returns (b: nat)
    requires e in log
    ensures b < |log| && log[b] == e
  {
    b :| b < |log| && log[b] == e;
  }

  /** Lock `b` is the first of its service after lock `a`. */
  ghost predicate NextLock(log: seq<LockEvent>, a: nat, b: nat) {
    && a < b < |log| && log[a].Acquired? && IsLock(log, log[a].service, b)
    && forall k :: a < k < b ==> !IsLock(log, log[a].service, k)
  }

  lemma {:induction false} FirstLock(log: seq<LockEvent>, a: nat, n: nat) returns (b: nat)
    requires a < n < |log| && log[a].Acquired? && IsLock(log, log[a].service, n)
    ensures NextLock(log, a, b) && b <= n
    decreases n
  {
    if k :| a < k < n && IsLock(log, log[a].service, k) {
      b := FirstLock(log, a, k);
    } else {
      b := n;
    }
  }

  /** The lock that the SET of `r` won, or was refused for, is later than `a` when `r` read the clock after `a` had run out. */
  lemma LaterLock(cfg: Config, s: State, a: nat, r: Id) returns (n: nat)
    requires cfg.Valid() && s.sets.Keys <= s.mem.checks.Keys && LogOk(cfg, s) && SetsOk(cfg, s)
    requires a < |s.log| && s.log[a].Acquired?
    requires r in s.sets && s.sets[r] != Sent && s.mem.checks[r].service == s.log[a].service
    requires s.log[a].at + cfg.cooldown <= s.mem.checks[r].readAt
    ensures a < n < |s.log| && IsLock(s.log, s.log[a].service, n) && s.log[n].at <= s.mem.checks[r].readAt + cfg.latency
  {
    var v := s.log[a].service;
    assert SetOk(cfg, s, r);
    var h := if s.sets[r].Won? then r else s.sets[r].holder;
    n := LockIndex(s.log, Acquired(v, s.sets[h].at, h));
  }

  /** The next lock comes within `g` and the latency of the end of lock `a`, and not before that end unless a loss made way. */
  ghost predicate Cadence(cfg: Config, log: seq<LockEvent>, a: nat, b: nat, g: nat) {
    && NextLock(log, a, b)
    && log[b].at <= log[a].at + cfg.cooldown + g + cfg.latency
    && (NoLoss(log, log[a].service, a, b) ==> log[a].at + cfg.cooldown <= log[b].at)
  }

  lemma LocksInCadence(cfg: Config, s: State, a: nat, r: Id, g: nat) returns (b: nat)
    requires cfg.Valid() && s.sets.Keys <= s.mem.checks.Keys && LogOk(cfg, s) && SetsOk(cfg, s)
    requires a < |s.log| && s.log[a].Acquired?
    requires r in s.sets && s.sets[r] != Sent && s.mem.checks[r].service == s.log[a].service
    requires s.log[a].at + cfg.cooldown <= s.mem.checks[r].readAt <= s.log[a].at + cfg.cooldown + g
    ensures Cadence(cfg, s.log, a, b, g)
  {
    var n := LaterLock(cfg, s, a, r);
    b := FirstLock(s.log, a, n);
    if NoLoss(s.log, s.log[a].service, a, b) {
      LocksApart(s.log, s.log[a].service, cfg.cooldown, a, b);
    }
  }

  /**
   Cadence. After a lock of a service, a check over the threshold that read the clock at most `g` after the lock ran out, and
   reached Redis, finds the next lock of the service taken no later than the cooldown, `g` and the latency together; and
   that next lock came no sooner than the cooldown, unless a loss destroyed a live key before it.
   */
  lemma GrantCadence(cfg: Config, states: seq<State>, events: seq<Event>, i: nat, a: nat, r: Id, g: nat)
    requires Run(cfg, states, events) && i < |states|
    requires a < |states[i].log| && states[i].log[a].Acquired?
    requires r in states[i].sets && states[i].sets[r] != Sent && r in states[i].mem.checks
    requires states[i].mem.checks[r].service == states[i].log[a].service
    requires states[i].log[a].at + cfg.cooldown <= states[i].mem.checks[r].readAt <= states[i].log[a].at + cfg.cooldown + g
    ensures exists b :: Cadence(cfg, states[i].log, a, b, g)
  {
    RunKeepsInv(cfg, states, events, i);
    var b := LocksInCadence(cfg, states[i], a, r, g);
  }

  // ---------------------------------------------------------------- idempotency keys

  /** The key every delivery attempt of the alert of check `c` carries. */
  function AlertKey(cfg: Config, c: Check): (k: IdempotencyKey)
    requires cfg.Valid()
    ensures forall id :: k == KeyOf(AlertOf(cfg, id, c).data)
  {
    IdempotencyKey(c.service, BucketStart(c.readAt, cfg.window))
  }

  /** Two locks of a service without a loss in between lead to different keys when the cooldown exceeds a window by the latency. */
  lemma RedisKeysDiffer(cfg: Config, states: seq<State>, events: seq<Event>, i: nat, a: nat, b: nat)
    requires Run(cfg, states, events) && i < |states|
    requires cfg.cooldown >= cfg.window + cfg.latency
    requires a < b < |states[i].log| && states[i].log[a].Acquired? && IsLock(states[i].log, states[i].log[a].service, b)
    requires NoLoss(states[i].log, states[i].log[a].service, a, b)
    ensures var s := states[i]; var p, q := s.log[a].id, s.log[b].id;
      p in s.mem.checks && q in s.mem.checks && AlertKey(cfg, s.mem.checks[p]) != AlertKey(cfg, s.mem.checks[q])
  {
    RunKeepsInv(cfg, states, events, i);
    LocksHaveDifferentKeys(cfg, states[i], a, b);
  }

  lemma LocksHaveDifferentKeys(cfg: Config, s: State, a: nat, b: nat)
    requires cfg.Valid() && s.sets.Keys <= s.mem.checks.Keys && LogOk(cfg, s) && SetsOk(cfg, s)
    requires cfg.cooldown >= cfg.window + cfg.latency
    requires a < b < |s.log| && s.log[a].Acquired? && IsLock(s.log, s.log[a].service, b)
    requires NoLoss(s.log, s.log[a].service, a, b)
    ensures var p, q := s.log[a].id, s.log[b].id;
      p in s.mem.checks && q in s.mem.checks && AlertKey(cfg, s.mem.checks[p]) != AlertKey(cfg, s.mem.checks[q])
  {
    LocksApart(s.log, s.log[a].service, cfg.cooldown, a, b);
    assert s.log[a] in s.log && s.log[b] in s.log;
    assert SetOk(cfg, s, s.log[a].id) && SetOk(cfg, s, s.log[b].id);
    BucketsApart(s.mem.checks[s.log[a].id].readAt, s.mem.checks[s.log[b].id].readAt, cfg.window);
  }

  ghost predicate DifferentKeys(cfg: Config, s: State, p: Id, q: Id)
    requires cfg.Valid()
  {
    p in s.mem.checks && q in s.mem.checks && AlertKey(cfg, s.mem.checks[p]) != AlertKey(cfg, s.mem.checks[q])
  }

  /** Any two locks of one service without a loss in between have different keys. */
  ghost predicate LocksSeparated(cfg: Config, s: State)
    requires cfg.Valid()
  {
    forall a, b ::
      0 <= a < b < |s.log| && s.log[a].Acquired? && IsLock(s.log, s.log[a].service, b) && NoLoss(s.log, s.log[a].service, a, b) ==>
        DifferentKeys(cfg, s, s.log[a].id, s.log[b].id)
  }

  /** A check that reads the clock now and whose SET wins the free key of `v` after `wait`. */
  ghost predicate TookLock(cfg: Config, s: State, t: State, id: Id, v: Service, wait: nat) {
    && t.now == s.now + wait && t.healthy == s.healthy
    && t.log == s.log + [Acquired(v, t.now, id)]
    && t.keys == s.keys[v := CooldownKey(id, t.now, t.now + cfg.cooldown)]
    && id in t.mem.checks && t.mem.checks == s.mem.checks[id := t.mem.checks[id]]
    && t.mem.checks[id].service == v && t.mem.checks[id].readAt == s.now
  }

  lemma TakeLock(cfg: Config, states: seq<State>, events: seq<Event>, id: Id, v: Service, wait: nat)
    returns (ss: seq<State>, es: seq<Event>)
    requires Run(cfg, states, events) && wait <= cfg.latency
    requires var s := states[|states| - 1];
      s.healthy && id !in s.mem.checks && (v in s.keys ==> s.keys[v].expiresAt <= s.now + wait)
    ensures Run(cfg, ss, es) && TookLock(cfg, states[|states| - 1], ss[|ss| - 1], id, v, wait)
  {
    var s := states[|states| - 1];
    ss, es := Extend(cfg, states, events, Begin(id, v));
    ss, es := Extend(cfg, ss, es, CountReply(id, cfg.threshold + 1));
    assert ss[|ss| - 1].sets == s.sets[id := Sent] && ss[|ss| - 1].keys == s.keys && ss[|ss| - 1].log == s.log;
    ss, es := Extend(cfg, ss, es, Tick(wait));
    ss, es := Extend(cfg, ss, es, SetExecutes(id));
  }

  /** Two checks at the ends of one window; the second SET executes at the end of its latency, after the first lock ran out. */
  lemma LocksCollide(cfg: Config) returns (ss: seq<State>, es: seq<Event>)
    requires cfg.Valid() && cfg.cooldown < cfg.window + cfg.latency
    ensures Run(cfg, ss, es) && !LocksSeparated(cfg, ss[|ss| - 1])
  {
    ss, es := TakeLock(cfg, [Start(0)], [], 0, "svc", 0);
    var first := ss[|ss| - 1];
    ss, es := Extend(cfg, ss, es, Tick(cfg.window - 1));
    ss, es := TakeLock(cfg, ss, es, 1, "svc", cfg.latency);
    var last := ss[|ss| - 1];
    assert last.log == [Acquired("svc", 0, 0), Acquired("svc", cfg.window - 1 + cfg.latency, 1)];
    SameWindow(cfg.window);
    assert !DifferentKeys(cfg, last, last.log[0].id, last.log[1].id);
    assert IsLock(last.log, last.log[0].service, 1) && NoLoss(last.log, last.log[0].service, 0, 1);
  }

  lemma SameWindow(window: nat)
    requires window > 0
    ensures BucketStart(0, window) == BucketStart(window - 1, window)
  {
    MultipleOf(0, window);
    BucketStartUnique(0, window, 0);
    BucketStartUnique(window - 1, window, 0);
  }

  /** For the protocol, too, the condition is exact: below it some run has two locks that share a key. */
  lemma RedisKeysDifferExactly(cfg: Config)
    requires cfg.Valid()
    ensures (forall states: seq<State>, events: seq<Event>, i: nat ::
               Run(cfg, states, events) && i < |states| ==> LocksSeparated(cfg, states[i]))
            <==> cfg.cooldown >= cfg.window + cfg.latency
  {
    if cfg.cooldown >= cfg.window + cfg.latency {
      forall states: seq<State>, events: seq<Event>, i: nat | Run(cfg, states, events) && i < |states|
        ensures LocksSeparated(cfg, states[i])
      {
        RunSeparates(cfg, states, events, i);
      }
    } else {
      var ss, es := LocksCollide(cfg);
      assert Run(cfg, ss, es) && !LocksSeparated(cfg, ss[|ss| - 1]);
    }
  }

  lemma RunSeparates(cfg: Config, states: seq<State>, events: seq<Event>, i: nat)
    requires Run(cfg, states, events) && i < |states| && cfg.cooldown >= cfg.window + cfg.latency
    ensures LocksSeparated(cfg, states[i])
  {
    var s := states[i];
    forall a, b | 0 <= a < b < |s.log| && s.log[a].Acquired? && IsLock(s.log, s.log[a].service, b)
                  && NoLoss(s.log, s.log[a].service, a, b)
      ensures DifferentKeys(cfg, s, s.log[a].id, s.log[b].id)
    {
      RedisKeysDiffer(cfg, states, events, i, a, b);
    }
  }

  /**
   Two direct sends of a service carry different keys when the cooldown exceeds a window by the delay of the later one:
   its grant uses a fresh clock when it follows a rejected enqueue, but its key is as old as the check.
   */
  lemma DirectKeysDiffer(cfg: Config, states: seq<State>, events: seq<Event>, i: nat, k: nat, l: nat, delay: nat)
    requires Run(cfg, states, events) && i < |states|
    requires k < l < |states[i].mem.direct| && states[i].mem.direct[k].service == states[i].mem.direct[l].service
    requires states[i].mem.direct[l].id in states[i].mem.checks
    requires states[i].mem.direct[l].stamp <= states[i].mem.checks[states[i].mem.direct[l].id].readAt + delay
    requires cfg.cooldown >= cfg.window + delay
    ensures var s := states[i]; var p, q := s.mem.direct[k].id, s.mem.direct[l].id;
      p in s.mem.checks && AlertKey(cfg, s.mem.checks[p]) != AlertKey(cfg, s.mem.checks[q])
  {
    RunKeepsInv(cfg, states, events, i);
    SendsHaveDifferentKeys(cfg, states[i], k, l, delay);
  }

  lemma SendsHaveDifferentKeys(cfg: Config, s: State, k: nat, l: nat, delay: nat)
    requires cfg.Valid() && DirectOk(cfg, s)
    requires k < l < |s.mem.direct| && s.mem.direct[k].service == s.mem.direct[l].service
    requires s.mem.direct[l].id in s.mem.checks
    requires s.mem.direct[l].stamp <= s.mem.checks[s.mem.direct[l].id].readAt + delay
    requires cfg.cooldown >= cfg.window + delay
    ensures var p, q := s.mem.direct[k].id, s.mem.direct[l].id;
      p in s.mem.checks && AlertKey(cfg, s.mem.checks[p]) != AlertKey(cfg, s.mem.checks[q])
  {
    SendsApart(cfg, s, k, l);
    BucketsApart(s.mem.checks[s.mem.direct[k].id].readAt, s.mem.checks[s.mem.direct[l].id].readAt, cfg.window);
  }

  /** Two grants a cooldown apart, each within `delay` of its clock read. */
  predicate GrantPair(cooldown: nat, delay: nat, read1: nat, grant1: nat, read2: nat, grant2: nat) {
    read1 <= grant1 <= read1 + delay && read2 <= grant2 <= read2 + delay && grant1 + cooldown <= grant2
  }

  /** The condition on the settings is exact: below it, some pair of grants shares its key. */
  lemma KeysSeparateExactly(window: nat, cooldown: nat, delay: nat)
    requires window > 0
    ensures (forall r1: nat, g1: nat, r2: nat, g2: nat :: GrantPair(cooldown, delay, r1, g1, r2, g2) ==>
               BucketStart(r1, window) != BucketStart(r2, window))
            <==> cooldown >= window + delay
  {
    if cooldown >= window + delay {
      forall r1: nat, g1: nat, r2: nat, g2: nat | GrantPair(cooldown, delay, r1, g1, r2, g2)
        ensures BucketStart(r1, window) != BucketStart(r2, window)
      {
        BucketsApart(r1, r2, window);
      }
    } else {
      assert GrantPair(cooldown, delay, 0, 0, window - 1, window - 1 + delay);
      SameWindow(window);
    }
  }
}
