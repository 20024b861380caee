/**
 The code of one process: the detector with its memory cooldown, the cooldown lock and the health flag. Each method is a
 piece of code between two awaits and does to the fields what the protocol step says; `Check` is one whole call.
 */
module Detector {
  import opened Common
  import opened Protocol

  /** What the awaits of one call bring back: a count, or nothing when the counter failed; the reply to SET, or nothing. */
  datatype Answers = Answers(redisCount: Option<nat>, dbCount: Option<nat>, lockReply: Option<bool>)

  datatype CheckEnd = Returned(verdict: Verdict) | Threw

  /** The count of a call: Redis when the flag allows and it answers, else the database. */
  function CountOf(healthy: bool, a: Answers): Option<nat> {
    if healthy && a.redisCount.Some? then a.redisCount else a.dbCount
  }

  class DetectorService {
    const cfg: Config
    var checks: map<Id, Check>
    var localCooldownUntil: map<Service, Time>
    var pending: set<Id>
    var rejected: set<Id>
    var skipped: set<Id>
    var direct: seq<Direct>

    ghost function Memory(): Memory
      reads this
    {
      Protocol.Memory(checks, localCooldownUntil, pending, rejected, skipped, direct)
    }

    constructor (cfg: Config)
      ensures this.cfg == cfg && Memory() == Start(0).mem
    {
      this.cfg := cfg;
      checks, localCooldownUntil, pending, rejected, skipped, direct := map[], map[], {}, {}, {}, [];
    }

    /** Takes the memory cooldown unless it is held at `now`. */
    method TryAcquireLocal(service: Service, now: Time) returns (acquired: bool)
      modifies `localCooldownUntil
      ensures acquired <==> (service in old(localCooldownUntil) ==> old(localCooldownUntil)[service] <= now)
      ensures localCooldownUntil ==
              if acquired then old(localCooldownUntil)[service := now + cfg.cooldown] else old(localCooldownUntil)
    {
      var until := if service in localCooldownUntil then localCooldownUntil[service] else 0;
      if until > now {
        return false;
      }
      localCooldownUntil := localCooldownUntil[service := now + cfg.cooldown];
      acquired := true;
    }

    method Begin(id: Id, service: Service, now: Time, healthy: bool)
      modifies this
      ensures Memory() == BeginCheck(old(Memory()), id, service, now, healthy)
    {
      if healthy {
        checks := checks[id := Protocol.Check(service, now, true, 0, 1, CountingInRedis)];
      } else {
        checks := checks[id := Protocol.Check(service, now, false, 0, 0, CountingInDb)];
      }
    }

    /** The fallback inside the counter, or the failure of the whole call. */
    method OnCountFailure(id: Id)
      requires id in checks
      modifies this
      ensures Memory() == AfterCountFailure(old(Memory()), id)
    {
      var c := checks[id];
      checks := checks[id := c.(phase := if c.phase == CountingInRedis then CountingInDb else Ended(DbFailed))];
    }

    method OnCount(id: Id, count: nat, now: Time)
      requires id in checks
      modifies this
      ensures Memory() == AfterCount(cfg, old(Memory()), id, count, now)
    {
      var c := checks[id].(count := count);
      checks := checks[id := c];
      if count > cfg.threshold {
        var redisDown := !c.sawHealthy;
        if redisDown {
          SendDegraded(id, now);
        } else {
          checks := checks[id := c.(phase := Locking, redisAwaits := c.redisAwaits + 1)];
        }
      } else {
        checks := checks[id := c.(phase := Ended(BelowThreshold))];
      }
    }

    /** The path without Redis: also the catch of a failed SET. */
    method SendDegraded(id: Id, now: Time)
      requires id in checks
      modifies this
      ensures var c := old(checks)[id]; var free := c.service in old(localCooldownUntil) ==> old(localCooldownUntil)[c.service] <= c.readAt;
        direct == (if free then old(direct) + [Direct(id, c.service, c.readAt, now)] else old(direct)) && pending == old(pending)
      ensures Memory() == Degrade(cfg, old(Memory()), id, now)
    {
      var c := checks[id];
      var send := TryAcquireLocal(c.service, c.readAt);
      if send {
        direct := direct + [Direct(id, c.service, c.readAt, now)];
      }
      checks := checks[id := c.(phase := Ended(if send then SentDirectly else HeldByMemory))];
    }

    method OnLockReply(id: Id, acquired: bool)
      requires id in checks
      modifies this
      ensures pending == (if acquired then old(pending) + {id} else old(pending)) && direct == old(direct)
      ensures Memory() == AfterLock(old(Memory()), id, acquired)
    {
      if acquired {
        pending := pending + {id};
      }
      checks := checks[id := checks[id].(phase := Ended(if acquired then Granted else HeldByRedis))];
    }

    method OnEnqueueRejected(id: Id, now: Time)
      requires id in checks
      modifies this
      ensures var v := old(checks)[id].service; var free := v in old(localCooldownUntil) ==> old(localCooldownUntil)[v] <= now;
        && direct == (if free then old(direct) + [Direct(id, v, now, now)] else old(direct))
        && skipped == (if free then old(skipped) else old(skipped) + {id})
        && pending == old(pending) - {id} && rejected == old(rejected) + {id}
      ensures Memory() == AfterEnqueueRejected(cfg, old(Memory()), id, now)
    {
      var service := checks[id].service;
      pending, rejected := pending - {id}, rejected + {id};
      var send := TryAcquireLocal(service, now);
      if send {
        direct := direct + [Direct(id, service, now, now)];
      } else {
        skipped := skipped + {id};
      }
    }

    /**
     One call from start to end, when its awaits answer as `a` says. It throws only when the count had to come from the
     database and that failed; it never waits for the enqueue it starts.
     */
    method Check(id: Id, service: Service, now: Time, later: Time, healthy: bool, a: Answers) returns (r: CheckEnd)
      modifies this
      ensures Memory() == CheckAlone(cfg, old(Memory()), id, service, now, later, healthy, a)
      ensures id in checks && checks[id].phase.Ended?
      ensures r == if checks[id].phase == Ended(DbFailed) then Threw else Returned(checks[id].phase.verdict)
      ensures r == Threw <==> (!healthy || a.redisCount.None?) && a.dbCount.None?
      ensures r != Threw && healthy && a.redisCount.Some? ==> checks[id].count == a.redisCount.value
      ensures r != Threw && (!healthy || a.redisCount.None?) ==> a.dbCount == Some(checks[id].count)
      ensures r == Returned(BelowThreshold) <==> r != Threw && checks[id].count <= cfg.threshold
      ensures r == Returned(Granted) <==> r != Threw && checks[id].count > cfg.threshold && healthy && a.lockReply == Some(true)
    {
      Begin(id, service, now, healthy);
      var count: nat;
      if healthy && a.redisCount.Some? {
        count := a.redisCount.value;
      } else {
        if healthy {
          OnCountFailure(id);
        }
        if a.dbCount.None? {
          OnCountFailure(id);
          return Threw;
        }
        count := a.dbCount.value;
      }
      OnCount(id, count, later);
      if checks[id].phase == Locking {
        if a.lockReply.Some? {
          OnLockReply(id, a.lockReply.value);
        } else {
          SendDegraded(id, later);
        }
      }
      r := Returned(checks[id].phase.verdict);
    }
  }

  /** The memory after the counting part of an undisturbed call. */
  function Counted(cfg: Config, m: Memory, id: Id, service: Service, now: Time, later: Time, healthy: bool, a: Answers): (n: Memory)
    ensures id in n.checks && n.checks[id].service == service && n.checks[id].readAt == now
  {
    var m1 := BeginCheck(m, id, service, now, healthy);
    var m2 := if healthy && a.redisCount.None? then AfterCountFailure(m1, id) else m1;
    var count := CountOf(healthy, a);
    if count.Some? then AfterCount(cfg, m2, id, count.value, later) else AfterCountFailure(m2, id)
  }

  /** The memory after one undisturbed call. */
  function CheckAlone(cfg: Config, m: Memory, id: Id, service: Service, now: Time, later: Time, healthy: bool, a: Answers): (n: Memory)
    ensures id in n.checks
  {
    var m1 := Counted(cfg, m, id, service, now, later, healthy, a);
    if m1.checks[id].phase != Locking then m1
    else if a.lockReply.Some? then AfterLock(m1, id, a.lockReply.value)
    else Degrade(cfg, m1, id, later)
  }

  /** Whether a call that found `count` errors may alert, and how. */
  predicate Over(cfg: Config, healthy: bool, a: Answers) {
    CountOf(healthy, a).Some? && CountOf(healthy, a).value > cfg.threshold
  }

  predicate Queued(cfg: Config, healthy: bool, a: Answers) {
    Over(cfg, healthy, a) && healthy && a.lockReply == Some(true)
  }

  predicate Degrading(cfg: Config, healthy: bool, a: Answers) {
    Over(cfg, healthy, a) && (!healthy || a.lockReply.None?)
  }

  /** The verdict of a call, from its answers and the memory cooldown. */
  function VerdictOf(cfg: Config, m: Memory, service: Service, now: Time, healthy: bool, a: Answers): Verdict {
    if CountOf(healthy, a).None? then DbFailed
    else if !Over(cfg, healthy, a) then BelowThreshold
    else if Queued(cfg, healthy, a) then Granted
    else if !Degrading(cfg, healthy, a) then HeldByRedis
    else if LocalFree(m.local, service, now) then SentDirectly
    else HeldByMemory
  }

  /** Where the counting part leaves the call. */
  lemma CountedPhase(cfg: Config, m: Memory, id: Id, service: Service, now: Time, later: Time, healthy: bool, a: Answers)
    ensures var n := Counted(cfg, m, id, service, now, later, healthy, a); var c := n.checks[id];
      && c.phase == (if Over(cfg, healthy, a) && healthy then Locking
                     else Ended(VerdictOf(cfg, m, service, now, healthy, a)))
      && c.redisAwaits == (if healthy then 1 else 0) + (if c.phase == Locking then 1 else 0)
      && (c.phase == Locking ==> n.local == m.local)
  {
  }

  /** The count of a call is the one that arrived first: that of Redis if the flag allowed to ask and it replied, else the database's. */
  lemma CountArrives(cfg: Config, m: Memory, id: Id, service: Service, now: Time, later: Time, healthy: bool, a: Answers)
    ensures var c := CheckAlone(cfg, m, id, service, now, later, healthy, a).checks[id];
      && c.service == service && c.readAt == now && c.sawHealthy == healthy
      && (healthy && a.redisCount.Some? ==> c.count == a.redisCount.value)
      && (!(healthy && a.redisCount.Some?) && a.dbCount.Some? ==> c.count == a.dbCount.value)
  {
    CountedPhase(cfg, m, id, service, now, later, healthy, a);
  }

  /**
   Redis can neither fail nor stall ingestion. For every flag and every answer, the call ends; it fails exactly when the
   count fell to a database that failed; it awaits Redis at most twice; and count, flag, lock reply and memory cooldown
   decide between its verdicts.
   */
  lemma IngestionSurvivesRedis(cfg: Config, m: Memory, id: Id, service: Service, now: Time, later: Time, healthy: bool, a: Answers)
    ensures var c := CheckAlone(cfg, m, id, service, now, later, healthy, a).checks[id];
      var failed := (!healthy || a.redisCount.None?) && a.dbCount.None?;
      var over := !failed && c.count > cfg.threshold;
      var free := service in m.local ==> m.local[service] <= now;
      && c.phase.Ended? && c.redisAwaits <= 2
      && (c.phase.verdict == DbFailed <==> failed)
      && (c.phase.verdict == BelowThreshold <==> !failed && c.count <= cfg.threshold)
      && (c.phase.verdict == Granted <==> over && healthy && a.lockReply == Some(true))
      && (c.phase.verdict == HeldByRedis <==> over && healthy && a.lockReply == Some(false))
      && (c.phase.verdict == SentDirectly <==> over && (!healthy || a.lockReply.None?) && free)
      && (c.phase.verdict == HeldByMemory <==> over && (!healthy || a.lockReply.None?) && !free)
  {
    CountArrives(cfg, m, id, service, now, later, healthy, a);
    VerdictArrives(cfg, m, id, service, now, later, healthy, a);
  }

  lemma VerdictArrives(cfg: Config, m: Memory, id: Id, service: Service, now: Time, later: Time, healthy: bool, a: Answers)
    ensures var c := CheckAlone(cfg, m, id, service, now, later, healthy, a).checks[id];
      c.phase == Ended(VerdictOf(cfg, m, service, now, healthy, a)) && c.redisAwaits <= 2
  {
    CountedPhase(cfg, m, id, service, now, later, healthy, a);
  }

  /** The effects of a step of call `id` on the rest of the memory. */
  ghost predicate Effect(cfg: Config, m: Memory, n: Memory, id: Id, c: Check, queued: bool, sent: bool, later: Time) {
    && n.checks == m.checks[id := c]
    && n.pending == m.pending + (if queued then {id} else {})
    && n.direct == m.direct + (if sent then [Direct(id, c.service, c.readAt, later)] else [])
    && n.local == (if sent then m.local[c.service := c.readAt + cfg.cooldown] else m.local)
    && n.rejected == m.rejected && n.skipped == m.skipped
  }

  lemma DegradeEffect(cfg: Config, m: Memory, id: Id, later: Time)
    requires id in m.checks
    ensures var c := m.checks[id]; var n := Degrade(cfg, m, id, later);
      id in n.checks && Effect(cfg, m, n, id, n.checks[id], false, LocalFree(m.local, c.service, c.readAt), later)
  {
  }

  lemma CountedEffect(cfg: Config, m: Memory, id: Id, service: Service, now: Time, later: Time, healthy: bool, a: Answers)
    ensures var n := Counted(cfg, m, id, service, now, later, healthy, a);
      Effect(cfg, m, n, id, n.checks[id], false, Over(cfg, healthy, a) && !healthy && LocalFree(m.local, service, now), later)
  {
  }

  lemma CallEffect(cfg: Config, m: Memory, id: Id, service: Service, now: Time, later: Time, healthy: bool, a: Answers)
    ensures var n := CheckAlone(cfg, m, id, service, now, later, healthy, a);
      && n.checks[id].service == service && n.checks[id].readAt == now
      && Effect(cfg, m, n, id, n.checks[id], Queued(cfg, healthy, a),
                Degrading(cfg, healthy, a) && LocalFree(m.local, service, now), later)
  {
    CountedEffect(cfg, m, id, service, now, later, healthy, a);
    var m1 := Counted(cfg, m, id, service, now, later, healthy, a);
    if m1.checks[id].phase == Locking && a.lockReply.None? {
      DegradeEffect(cfg, m1, id, later);
    }
  }

  /**
   A call starts at most one alert: through the queue when it got the lock, directly when it was sent; only a direct send
   takes the memory cooldown, from the clock reading of the call on. Every other call and every older promise is left alone.
   */
  lemma CallStartsAtMostOneAlert(cfg: Config, m: Memory, id: Id, service: Service, now: Time, later: Time, healthy: bool, a: Answers)
    ensures var n := CheckAlone(cfg, m, id, service, now, later, healthy, a); var p := n.checks[id].phase;
      && n.checks == m.checks[id := n.checks[id]] && n.checks[id].service == service && n.checks[id].readAt == now
      && n.pending == m.pending + (if p == Ended(Granted) then {id} else {})
      && n.direct == m.direct + (if p == Ended(SentDirectly) then [Direct(id, service, now, later)] else [])
      && n.local == (if p == Ended(SentDirectly) then m.local[service := now + cfg.cooldown] else m.local)
      && n.rejected == m.rejected && n.skipped == m.skipped
  {
    CallEffect(cfg, m, id, service, now, later, healthy, a);
    VerdictArrives(cfg, m, id, service, now, later, healthy, a);
  }

  // ---------------------------------------------------------------- a call is one schedule of the protocol

  /** `t` is reached from `s` by the events, one after the other. */
  ghost predicate Steps(cfg: Config, s: State, events: seq<Event>, t: State)
    requires cfg.Valid()
    decreases |events|
  {
    if events == [] then s == t
    else Enabled(cfg, s, events[0]) && Steps(cfg, Apply(cfg, s, events[0]), events[1..], t)
  }

  lemma {:induction false} StepsThenStep(cfg: Config, s: State, events: seq<Event>, t: State, e: Event)
    requires cfg.Valid() && Steps(cfg, s, events, t) && Enabled(cfg, t, e)
    ensures Steps(cfg, s, events + [e], Apply(cfg, t, e))
    decreases |events|
  {
    if events == [] {
      assert [e][1..] == [];
    } else {
      assert (events + [e])[1..] == events[1..] + [e];
      StepsThenStep(cfg, Apply(cfg, s, events[0]), events[1..], t, e);
    }
  }

  /** The events of the counting part of a call that takes `wait` until its count arrives. */
  function CountingEvents(id: Id, service: Service, wait: nat, healthy: bool, a: Answers): seq<Event> {
    [Begin(id, service)]
    + (if healthy && a.redisCount.None? then [CountFailure(id)] else [])
    + [Tick(wait)]
    + [if CountOf(healthy, a).Some? then CountReply(id, CountOf(healthy, a).value) else CountFailure(id)]
  }

  lemma CountIsSchedule(cfg: Config, s: State, events: seq<Event>, s1: State, id: Id, count: Option<nat>) returns (t: State)
    requires cfg.Valid() && Steps(cfg, s, events, s1)
    requires InPhase(s1, id, CountingInRedis) || InPhase(s1, id, CountingInDb)
    requires count.Some? ==> Timely(cfg, s1, id)
    ensures Steps(cfg, s, events + [if count.Some? then CountReply(id, count.value) else CountFailure(id)], t)
    ensures t.mem == if count.Some? then AfterCount(cfg, s1.mem, id, count.value, s1.now) else AfterCountFailure(s1.mem, id)
    ensures t.now == s1.now && t.keys == s1.keys
    ensures count.Some? && t.mem.checks[id].phase == Locking ==> id in t.sets && t.sets[id] == Sent
  {
    var e := if count.Some? then CountReply(id, count.value) else CountFailure(id);
    StepsThenStep(cfg, s, events, s1, e);
    t := Apply(cfg, s1, e);
  }

  /** The start of a call, the fallback of its counter if there is one, and the wait for the count. */
  lemma WaitingIsSchedule(cfg: Config, s: State, id: Id, service: Service, wait: nat, a: Answers)
    returns (events: seq<Event>, t: State)
    requires cfg.Valid() && id !in s.mem.checks
    ensures Steps(cfg, s, events, t)
    ensures events == [Begin(id, service)] + (if s.healthy && a.redisCount.None? then [CountFailure(id)] else []) + [Tick(wait)]
    ensures var m := BeginCheck(s.mem, id, service, s.now, s.healthy);
      t.mem == if s.healthy && a.redisCount.None? then AfterCountFailure(m, id) else m
    ensures t.now == s.now + wait && t.keys == s.keys
  {
    events := [Begin(id, service)];
    t := Apply(cfg, s, events[0]);
    assert events[1..] == [];
    assert Steps(cfg, t, [], t);
    if s.healthy && a.redisCount.None? {
      StepsThenStep(cfg, s, events, t, CountFailure(id));
      events, t := events + [CountFailure(id)], Apply(cfg, t, CountFailure(id));
    }
    StepsThenStep(cfg, s, events, t, Tick(wait));
    events, t := events + [Tick(wait)], Apply(cfg, t, Tick(wait));
  }

  lemma CountingIsSchedule(cfg: Config, s: State, id: Id, service: Service, wait: nat, a: Answers) returns (t: State)
    requires cfg.Valid() && id !in s.mem.checks && wait <= cfg.latency
    ensures Steps(cfg, s, CountingEvents(id, service, wait, s.healthy, a), t)
    ensures t.mem == Counted(cfg, s.mem, id, service, s.now, s.now + wait, s.healthy, a)
    ensures t.now == s.now + wait && t.keys == s.keys
    ensures t.mem.checks[id].phase == Locking ==> id in t.sets && t.sets[id] == Sent
  {
    var events, s1 := WaitingIsSchedule(cfg, s, id, service, wait, a);
    t := CountIsSchedule(cfg, s, events, s1, id, CountOf(s.healthy, a));
  }

  /** A reply to SET tells whether the key was free when the server executed it. */
  ghost predicate HonestReply(s: State, service: Service, later: Time, a: Answers) {
    a.lockReply.Some? ==> (a.lockReply.value <==> !KeyLive(s.(now := later), service))
  }

  lemma LockingIsSchedule(cfg: Config, s: State, counting: seq<Event>, s1: State, id: Id, a: Answers)
    returns (events: seq<Event>, t: State)
    requires cfg.Valid() && Steps(cfg, s, counting, s1)
    requires InPhase(s1, id, Locking) && Timely(cfg, s1, id) && id in s1.sets && s1.sets[id] == Sent
    requires a.lockReply.Some? ==> (a.lockReply.value <==> !KeyLive(s1, s1.mem.checks[id].service))
    ensures Steps(cfg, s, events, t) && t.now == s1.now
    ensures t.mem == if a.lockReply.Some? then AfterLock(s1.mem, id, a.lockReply.value) else Degrade(cfg, s1.mem, id, s1.now)
  {
    if a.lockReply.Some? {
      t := Apply(cfg, s1, SetExecutes(id));
      StepsThenStep(cfg, s, counting, s1, SetExecutes(id));
      assert t.mem == s1.mem && (t.sets[id].Won? <==> a.lockReply.value);
      StepsThenStep(cfg, s, counting + [SetExecutes(id)], t, SetReply(id));
      events, t := counting + [SetExecutes(id)] + [SetReply(id)], Apply(cfg, t, SetReply(id));
    } else {
      StepsThenStep(cfg, s, counting, s1, SetFailure(id));
      events, t := counting + [SetFailure(id)], Apply(cfg, s1, SetFailure(id));
    }
  }

  /** The code of a whole call, from its clock read until `later`, does what some schedule of the protocol does. */
  lemma CheckIsSchedule(cfg: Config, s: State, id: Id, service: Service, later: Time, a: Answers)
    returns (events: seq<Event>, t: State)
    requires cfg.Valid() && id !in s.mem.checks && s.now <= later <= s.now + cfg.latency && HonestReply(s, service, later, a)
    ensures Steps(cfg, s, events, t) && t.now == later
    ensures t.mem == CheckAlone(cfg, s.mem, id, service, s.now, later, s.healthy, a)
  {
    events := CountingEvents(id, service, later - s.now, s.healthy, a);
    t := CountingIsSchedule(cfg, s, id, service, later - s.now, a);
    if t.mem.checks[id].phase == Locking {
      events, t := LockingIsSchedule(cfg, s, events, t, id, a);
    }
  }

  // ---------------------------------------------------------------- the services around the detector

  /** Is the key of `service` free at `now`? */
  predicate LockFree(keys: map<Service, CooldownKey>, service: Service, now: Time) {
    !(service in keys && now < keys[service].expiresAt)
  }

  /** The cooldown lock in Redis: one key per service, gone when its time is up. */
  class CooldownService {
    const cooldown: nat
    var keys: map<Service, CooldownKey>

    constructor (cooldown: nat)
      ensures this.cooldown == cooldown && keys == map[]
    {
      this.cooldown, keys := cooldown, map[];
    }

    /** SET NX EX: the one command that tests and sets. */
    method TryAcquire(id: Id, service: Service, now: Time) returns (acquired: bool)
      modifies this
      ensures acquired <==> LockFree(old(keys), service, now)
      ensures keys == if acquired then old(keys)[service := CooldownKey(id, now, now + cooldown)] else old(keys)
    {
      if service in keys && now < keys[service].expiresAt {
        return false;
      }
      keys := keys[service := CooldownKey(id, now, now + cooldown)];
      acquired := true;
    }

    /** The remaining seconds as Redis rounds them; a missing key or a zero is no cooldown at all. */
    method GetTtl(service: Service, now: Time) returns (ttl: Option<nat>)
      ensures ttl.Some? ==> service in keys && now < keys[service].expiresAt && ttl.value > 0
      ensures ttl.Some? ==> -500 < 1000 * ttl.value - (keys[service].expiresAt - now) <= 500
      ensures ttl.None? <==> !(service in keys && now + 500 <= keys[service].expiresAt)
    {
      var reply: int := -2;
      if service in keys && now < keys[service].expiresAt {
        reply := (keys[service].expiresAt - now + 500) / 1000;
      }
      ttl := if reply > 0 then Some(reply) else None;
    }
  }

  /** The lock of the code is the SET of the protocol: same winner, same keys, and a logged lock exactly for a winner. */
  lemma LockIsProtocolSet(cfg: Config, s: State, id: Id)
    requires cfg.Valid() && Enabled(cfg, s, SetExecutes(id))
    ensures var service, t := s.mem.checks[id].service, Apply(cfg, s, SetExecutes(id));
      var acquired := LockFree(s.keys, service, s.now);
      && t.keys == (if acquired then s.keys[service := CooldownKey(id, s.now, s.now + cfg.cooldown)] else s.keys)
      && t.sets.Keys == s.sets.Keys && (t.sets[id].Won? <==> acquired) && t.sets[id] != Sent
      && (Acquired(service, s.now, id) in t.log[|s.log|..] <==> acquired)
  {
    var service, t := s.mem.checks[id].service, Apply(cfg, s, SetExecutes(id));
    if LockFree(s.keys, service, s.now) {
      assert t.log[|s.log|..] == [Acquired(service, s.now, id)];
    } else {
      assert t.log[|s.log|..] == [];
    }
  }

  datatype HealthEvent = PingAnswered | PingFailed | ErrorEvent

  /** The flag follows the newest event; before the first one Redis counts as healthy. */
  function FlagAfter(history: seq<HealthEvent>): bool {
    history == [] || history[|history| - 1] == PingAnswered
  }

  class RedisHealthService {
    var healthy: bool
    ghost var history: seq<HealthEvent>

    ghost predicate Valid()
      reads this
    {
      healthy == FlagAfter(history)
    }

    constructor ()
      ensures Valid() && history == []
    {
      healthy, history := true, [];
    }

    method OnError()
      requires Valid()
      modifies this
      ensures Valid() && history == old(history) + [ErrorEvent] && !healthy
    {
      healthy, history := false, history + [ErrorEvent];
    }

    method Probe(pingAnswers: bool)
      requires Valid()
      modifies this
      ensures Valid() && history == old(history) + [if pingAnswers then PingAnswered else PingFailed]
      ensures healthy == pingAnswers
    {
      if pingAnswers {
        healthy := true;
      } else {
        healthy := false;
      }
      history := history + [if pingAnswers then PingAnswered else PingFailed];
    }
  }

  /** The flag is raised by an answered PING alone; a failed one and an error lower it alike. */
  lemma FlagFollowsNewest(history: seq<HealthEvent>)
    ensures FlagAfter([]) && FlagAfter(history + [PingAnswered])
    ensures !FlagAfter(history + [PingFailed]) && !FlagAfter(history + [ErrorEvent])
  {
  }

  /** `history` can be behind the health events of a run: an answered PING for each rise, a failed one or an error for each fall. */
  ghost predicate Explains(history: seq<HealthEvent>, events: seq<Event>)
    decreases |events|
  {
    if events == [] then history == []
    else
      var last, before := events[|events| - 1], events[..|events| - 1];
      if last.Health? then
        && history != [] && (history[|history| - 1] == PingAnswered <==> last.up)
        && Explains(history[..|history| - 1], before)
      else Explains(history, before)
  }

  /** The flag that the checks of a run read is the flag of the health service after any history behind its health events. */
  lemma {:induction false} FlagOfRun(cfg: Config, states: seq<State>, events: seq<Event>, i: nat, history: seq<HealthEvent>)
    requires Run(cfg, states, events) && i < |states| && Explains(history, events[..i])
    ensures states[i].healthy == FlagAfter(history)
  {
    if i > 0 {
      var e := events[i - 1];
      assert events[..i][..i - 1] == events[..i - 1];
      FlagOfRun(cfg, states, events, i - 1, if e.Health? then history[..|history| - 1] else history);
      FlagAfterStep(cfg, states[i - 1], e);
    }
  }

  lemma FlagAfterStep(cfg: Config, s: State, e: Event)
    requires cfg.Valid() && Enabled(cfg, s, e)
    ensures Apply(cfg, s, e).healthy == if e.Health? then e.up else s.healthy
  {
  }
}
