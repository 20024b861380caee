/** What every step of the protocol keeps. */
module ProtocolInvariants {
  import opened Common
  import opened Alerts
  import opened Protocol
  import opened Histories

  // ---------------------------------------------------------------- longer runs

  /** A run goes on with any event that is enabled. */
  lemma Extend(cfg: Config, states: seq<State>, events: seq<Event>, e: Event) returns (ss: seq<State>, es: seq<Event>)
    requires Run(cfg, states, events) && Enabled(cfg, states[|states| - 1], e)
    ensures Run(cfg, ss, es) && ss[|ss| - 1] == Apply(cfg, states[|states| - 1], e)
  {
    ss, es := states + [Apply(cfg, states[|states| - 1], e)], events + [e];
    forall i | 0 <= i < |es| ensures Enabled(cfg, ss[i], es[i]) && ss[i + 1] == Apply(cfg, ss[i], es[i]) {
      if i < |events| {
        assert Enabled(cfg, states[i], events[i]) && states[i + 1] == Apply(cfg, states[i], events[i]);
      }
    }
  }

  // ---------------------------------------------------------------- the invariant

  /** Each check is where its SET says it can be, and awaited Redis at most twice. */
  ghost predicate ChecksOk(s: State) {
    && (forall id :: id in s.mem.checks ==> CheckOk(s, id, s.mem.checks[id]))
    && s.sets.Keys <= s.mem.checks.Keys
  }

  ghost predicate CheckOk(s: State, id: Id, c: Check) {
    && c.readAt <= s.now
    && (match c.phase
        case CountingInRedis => c.redisAwaits == 1 && c.sawHealthy && id !in s.sets
        case CountingInDb => c.redisAwaits == (if c.sawHealthy then 1 else 0) && id !in s.sets
        case Locking => c.redisAwaits == 2 && c.sawHealthy && id in s.sets
        case Ended(v) =>
          && c.redisAwaits <= 2
          && (v == Granted ==> id in s.sets && s.sets[id].Won?)
          && (v == HeldByRedis ==> id in s.sets && s.sets[id].Refused?)
          && (v == BelowThreshold || v == DbFailed ==> id !in s.sets))
  }

  /** A SET executes within the latency; a refusal names a winner whose lock was live at that moment. */
  ghost predicate SetsOk(cfg: Config, s: State)
    requires s.sets.Keys <= s.mem.checks.Keys
  {
    forall id :: id in s.sets ==> SetOk(cfg, s, id)
  }

  ghost predicate SetOk(cfg: Config, s: State, id: Id)
    requires s.sets.Keys <= s.mem.checks.Keys && id in s.sets
  {
    var c := s.mem.checks[id];
    match s.sets[id]
    case Sent => true
    case Won(at) => c.readAt <= at <= c.readAt + cfg.latency && at <= s.now
    case Refused(h, at) =>
      && c.readAt <= at <= c.readAt + cfg.latency && at <= s.now
      && h in s.sets && s.sets[h].Won? && s.mem.checks[h].service == c.service
      && s.sets[h].at <= at < s.sets[h].at + cfg.cooldown
      && (h in s.ledger.lost ==> c.readAt <= s.ledger.lost[h])
  }

  /** Every cooldown key was set by a winner whose alert no data loss has taken. */
  ghost predicate KeysOk(cfg: Config, s: State)
    requires s.sets.Keys <= s.mem.checks.Keys
  {
    forall v :: v in s.keys ==>
      var k := s.keys[v];
      && k.owner in s.sets && s.sets[k.owner] == Won(k.setAt) && s.mem.checks[k.owner].service == v
      && k.expiresAt == k.setAt + cfg.cooldown
      && k.owner !in s.ledger.lost
  }

  /** The log of locks agrees with the winners and with the keys, and its locks are spaced. */
  ghost predicate LogOk(cfg: Config, s: State)
    requires s.sets.Keys <= s.mem.checks.Keys
  {
    && LogOrdered(s.log)
    && (forall e :: e in s.log ==> e.at <= s.now)
    && (forall e :: e in s.log && e.Acquired? ==>
          e.id in s.sets && s.sets[e.id] == Won(e.at) && s.mem.checks[e.id].service == e.service)
    && (forall id :: id in s.sets && s.sets[id].Won? ==>
          Acquired(s.mem.checks[id].service, s.sets[id].at, id) in s.log)
    && (forall v :: Spaced(s.log, v, cfg.cooldown))
    && (forall v :: LastLock(s.log, v).Some? ==> LockStands(cfg, s, v, LastLock(s.log, v).value))
  }

  /** The newest lock of `v` either still has its key or has run out. */
  ghost predicate LockStands(cfg: Config, s: State, v: Service, at: Time) {
    (v in s.keys && s.keys[v].expiresAt == at + cfg.cooldown) || at + cfg.cooldown <= s.now
  }

  /** The memory cooldown is the newest direct send plus the cooldown, and direct sends are spaced. */
  ghost predicate DirectOk(cfg: Config, s: State) {
    && (forall i :: 0 <= i < |s.mem.direct| ==>
          var d := s.mem.direct[i];
          && d.id in s.mem.checks && s.mem.checks[d.id].service == d.service
          && s.mem.checks[d.id].readAt <= d.stamp
          && d.firedAt <= s.now)
    && StampsRecent(s.mem.direct, cfg.latency)
    && (forall v :: StampsSpaced(s.mem.direct, v, cfg.cooldown))
    && (forall v :: match LastStamp(s.mem.direct, v)
          case None => v !in s.mem.local
          case Some(t) => v in s.mem.local && s.mem.local[v] == t + cfg.cooldown)
  }

  /** Some direct send of `v` has a stamp later than `after`. */
  ghost predicate SentAfter(direct: seq<Direct>, v: Service, after: int) {
    exists i :: 0 <= i < |direct| && direct[i].service == v && direct[i].stamp > after
  }

  ghost function DirectIds(direct: seq<Direct>): set<Id> {
    set i | 0 <= i < |direct| :: direct[i].id
  }

  /** Whoever was held back by the memory cooldown has a direct send to point to. */
  ghost predicate HeldOk(cfg: Config, s: State)
    requires s.sets.Keys <= s.mem.checks.Keys
  {
    && (forall id :: id in s.mem.checks && s.mem.checks[id].phase == Ended(HeldByMemory) ==>
          SentAfter(s.mem.direct, s.mem.checks[id].service, s.mem.checks[id].readAt - cfg.cooldown))
    && (forall id :: id in s.mem.checks && s.mem.checks[id].phase == Ended(SentDirectly) ==>
          SentAfter(s.mem.direct, s.mem.checks[id].service, s.mem.checks[id].readAt - 1))
    && (forall id :: id in s.mem.rejected ==>
          && id in s.sets && s.sets[id].Won?
          && SentAfter(s.mem.direct, s.mem.checks[id].service,
                       if id in s.mem.skipped then s.sets[id].at - cfg.cooldown else s.sets[id].at - 1))
  }

  ghost function GrantedIds(m: Memory): set<Id> {
    set id | id in m.checks && m.checks[id].phase == Ended(Granted)
  }

  ghost function DegradedIds(m: Memory): set<Id> {
    set id | id in m.checks && m.checks[id].phase == Ended(SentDirectly)
  }

  /** Seven sets of ids without a common member. */
  ghost predicate Apart(a: set<Id>, b: set<Id>, c: set<Id>, d: set<Id>, e: set<Id>, f: set<Id>, g: set<Id>) {
    && a !! b && a !! c && a !! d && a !! e && a !! f && a !! g
    && b !! c && b !! d && b !! e && b !! f && b !! g
    && c !! d && c !! e && c !! f && c !! g
    && d !! e && d !! f && d !! g
    && e !! f && e !! g
    && f !! g
  }

  /** Every grant is in exactly one place. */
  ghost predicate GrantsOk(s: State) {
    && Apart(s.mem.pending, s.queue.Keys, s.ledger.completed, s.ledger.exhausted, s.ledger.unrecorded,
             s.ledger.lost.Keys, s.mem.rejected)
    && GrantedIds(s.mem) == s.mem.pending + s.queue.Keys + s.ledger.completed + s.ledger.exhausted
                            + s.ledger.unrecorded + s.ledger.lost.Keys + s.mem.rejected
  }

  /** Every direct send comes from one degraded check or one rejected enqueue, and is in exactly one place. */
  ghost predicate DirectAccount(skipped: set<Id>, rejected: set<Id>, degraded: set<Id>, sent: set<Id>, sends: nat,
                                open: set<Id>, done: set<Id>, failed: set<Id>, doubleFailed: set<Id>) {
    && skipped <= rejected
    && sent == degraded + (rejected - skipped)
    && sends == |sent|
    && sent == open + done + failed + doubleFailed
    && open !! done && open !! failed && open !! doubleFailed
    && done !! failed && done !! doubleFailed && failed !! doubleFailed
  }

  ghost predicate DirectsOk(s: State) {
    DirectAccount(s.mem.skipped, s.mem.rejected, DegradedIds(s.mem), DirectIds(s.mem.direct), |s.mem.direct|,
                  s.ledger.open, s.ledger.directDone, s.ledger.directFailed, s.ledger.doubleFailed)
  }

  /** The two tables hold exactly one row per settled alert, with the data of the check that caused it. */
  ghost predicate TablesOk(cfg: Config, s: State)
    requires cfg.Valid()
  {
    && (forall i :: 0 <= i < |s.tables.alerts| ==>
          var id := s.tables.alerts[i].job;
          && id in s.mem.checks && id in s.ledger.completed + s.ledger.directDone
          && s.tables.alerts[i] == RowOf(AlertOf(cfg, id, s.mem.checks[id])))
    && (forall i :: 0 <= i < |s.tables.failures| ==>
          var id := s.tables.failures[i].job;
          && id in s.mem.checks && id in s.ledger.exhausted + s.ledger.directFailed
          && s.tables.failures[i] == FailureOf(AlertOf(cfg, id, s.mem.checks[id]),
                                               if id in s.ledger.exhausted then cfg.attempts else 1))
    && (forall i, j :: 0 <= i < j < |s.tables.alerts| ==> s.tables.alerts[i].job != s.tables.alerts[j].job)
    && (forall i, j :: 0 <= i < j < |s.tables.failures| ==> s.tables.failures[i].job != s.tables.failures[j].job)
    && |s.tables.alerts| == |s.ledger.completed| + |s.ledger.directDone|
    && |s.tables.failures| == |s.ledger.exhausted| + |s.ledger.directFailed|
  }

  /** A job in the queue has attempts left. */
  ghost predicate QueueOk(cfg: Config, s: State) {
    forall id :: id in s.queue ==> s.queue[id] < cfg.attempts
  }

  ghost predicate Inv(cfg: Config, s: State)
    requires cfg.Valid()
  {
    && ChecksOk(s) && SetsOk(cfg, s) && KeysOk(cfg, s) && LogOk(cfg, s) && DirectOk(cfg, s) && HeldOk(cfg, s)
    && GrantsOk(s) && DirectsOk(s) && TablesOk(cfg, s) && QueueOk(cfg, s)
  }

  // ---------------------------------------------------------------- what an event changes

  /** `c` is the same check later on. */
  predicate SameStart(c: Check, d: Check) {
    c.service == d.service && c.readAt == d.readAt && c.sawHealthy == d.sawHealthy
  }

  ghost predicate Moved(s: State, t: State, id: Id, c: Check) {
    t == s.(mem := s.mem.(checks := s.mem.checks[id := c]))
  }

  ghost predicate SetIssued(s: State, t: State, id: Id, c: Check) {
    t == s.(mem := s.mem.(checks := s.mem.checks[id := c]), sets := s.sets[id := Sent])
  }

  ghost predicate GrantMade(s: State, t: State, id: Id, c: Check) {
    t == s.(mem := s.mem.(checks := s.mem.checks[id := c], pending := s.mem.pending + {id}))
  }

  /** A direct send `d`, together with its check `c`. */
  ghost predicate SendMade(cfg: Config, s: State, t: State, d: Direct, c: Check) {
    && LocalFree(s.mem.local, d.service, d.stamp)
    && t == s.(mem := s.mem.(checks := s.mem.checks[d.id := c],
                             local := s.mem.local[d.service := d.stamp + cfg.cooldown],
                             direct := s.mem.direct + [d]),
               ledger := s.ledger.(open := s.ledger.open + {d.id}))
  }

  ghost predicate RejectionSent(cfg: Config, s: State, t: State, d: Direct) {
    && LocalFree(s.mem.local, d.service, d.stamp)
    && t == s.(mem := s.mem.(local := s.mem.local[d.service := d.stamp + cfg.cooldown],
                             direct := s.mem.direct + [d],
                             pending := s.mem.pending - {d.id},
                             rejected := s.mem.rejected + {d.id}),
               ledger := s.ledger.(open := s.ledger.open + {d.id}))
  }

  ghost predicate RejectionSkipped(s: State, t: State, id: Id) {
    t == s.(mem := s.mem.(pending := s.mem.pending - {id},
                          rejected := s.mem.rejected + {id},
                          skipped := s.mem.skipped + {id}))
  }

  lemma CountReplyShape(cfg: Config, s: State, id: Id, count: nat) returns (c: Check)
    requires cfg.Valid() && Enabled(cfg, s, CountReply(id, count))
    ensures SameStart(s.mem.checks[id], c) && c.count == count
    ensures var t := Apply(cfg, s, CountReply(id, count));
      var before := s.mem.checks[id];
      || (count <= cfg.threshold && c.phase == Ended(BelowThreshold) && c.redisAwaits == before.redisAwaits && Moved(s, t, id, c))
      || (count > cfg.threshold && c.sawHealthy && c.phase == Locking && c.redisAwaits == before.redisAwaits + 1 && SetIssued(s, t, id, c))
      || (count > cfg.threshold && !c.sawHealthy && c.redisAwaits == before.redisAwaits && Degraded(cfg, s, t, id, c))
  {
    c := Apply(cfg, s, CountReply(id, count)).mem.checks[id];
  }

  /** The degraded path either sends or is held back by the memory cooldown. */
  ghost predicate Degraded(cfg: Config, s: State, t: State, id: Id, c: Check) {
    || (c.phase == Ended(SentDirectly) && SendMade(cfg, s, t, Direct(id, c.service, c.readAt, s.now), c))
    || (c.phase == Ended(HeldByMemory) && !LocalFree(s.mem.local, c.service, c.readAt) && Moved(s, t, id, c))
  }

  lemma SetFailureShape(cfg: Config, s: State, id: Id) returns (c: Check)
    requires cfg.Valid() && Enabled(cfg, s, SetFailure(id))
    ensures SameStart(s.mem.checks[id], c) && c.count == s.mem.checks[id].count && c.redisAwaits == s.mem.checks[id].redisAwaits
    ensures Degraded(cfg, s, Apply(cfg, s, SetFailure(id)), id, c)
  {
    c := Apply(cfg, s, SetFailure(id)).mem.checks[id];
  }

  lemma SetReplyShape(cfg: Config, s: State, id: Id) returns (c: Check)
    requires cfg.Valid() && Enabled(cfg, s, SetReply(id))
    ensures SameStart(s.mem.checks[id], c) && c.count == s.mem.checks[id].count && c.redisAwaits == s.mem.checks[id].redisAwaits
    ensures var t := Apply(cfg, s, SetReply(id));
      if s.sets[id].Won? then c.phase == Ended(Granted) && GrantMade(s, t, id, c)
      else c.phase == Ended(HeldByRedis) && Moved(s, t, id, c)
  {
    c := Apply(cfg, s, SetReply(id)).mem.checks[id];
  }

  lemma RejectionShape(cfg: Config, s: State, id: Id)
    requires cfg.Valid() && Enabled(cfg, s, EnqueueRejected(id))
    ensures var t := Apply(cfg, s, EnqueueRejected(id));
      var v := s.mem.checks[id].service;
      if LocalFree(s.mem.local, v, s.now) then RejectionSent(cfg, s, t, Direct(id, v, s.now, s.now))
      else RejectionSkipped(s, t, id)
  {
  }

  // ---------------------------------------------------------------- checks

  lemma ChecksUnchanged(s: State, t: State)
    requires ChecksOk(s) && s.now <= t.now && t.mem.checks == s.mem.checks && t.sets == s.sets
    ensures ChecksOk(t)
  {
    forall id | id in t.mem.checks ensures CheckOk(t, id, t.mem.checks[id]) {
      assert CheckOk(s, id, s.mem.checks[id]);
    }
  }

  lemma CheckMoved(s: State, t: State, id: Id, c: Check, x: SetCommand)
    requires ChecksOk(s) && s.now <= t.now && t.mem.checks == s.mem.checks[id := c]
    requires t.sets == s.sets || t.sets == s.sets[id := x]
    requires CheckOk(t, id, c)
    ensures ChecksOk(t)
  {
    forall y | y in t.mem.checks ensures CheckOk(t, y, t.mem.checks[y]) {
      if y != id {
        assert CheckOk(s, y, s.mem.checks[y]);
      }
    }
  }

  lemma CountReplyKeepsChecks(cfg: Config, s: State, id: Id, n: nat)
    requires cfg.Valid() && ChecksOk(s) && Enabled(cfg, s, CountReply(id, n))
    ensures ChecksOk(Apply(cfg, s, CountReply(id, n)))
  {
    assert CheckOk(s, id, s.mem.checks[id]);
    var c := CountReplyShape(cfg, s, id, n);
    CheckMoved(s, Apply(cfg, s, CountReply(id, n)), id, c, Sent);
  }

  lemma CountFailureKeepsChecks(cfg: Config, s: State, id: Id)
    requires cfg.Valid() && ChecksOk(s) && Enabled(cfg, s, CountFailure(id))
    ensures ChecksOk(Apply(cfg, s, CountFailure(id)))
  {
    var t := Apply(cfg, s, CountFailure(id));
    assert CheckOk(s, id, s.mem.checks[id]);
    CheckMoved(s, t, id, t.mem.checks[id], Sent);
  }

  lemma SetExecutionKeepsChecks(cfg: Config, s: State, id: Id)
    requires cfg.Valid() && ChecksOk(s) && Enabled(cfg, s, SetExecutes(id))
    ensures ChecksOk(Apply(cfg, s, SetExecutes(id)))
  {
    var t := Apply(cfg, s, SetExecutes(id));
    assert CheckOk(s, id, s.mem.checks[id]);
    CheckMoved(s, t, id, s.mem.checks[id], t.sets[id]);
  }

  lemma SetReplyKeepsChecks(cfg: Config, s: State, id: Id)
    requires cfg.Valid() && ChecksOk(s) && Enabled(cfg, s, SetReply(id))
    ensures ChecksOk(Apply(cfg, s, SetReply(id)))
  {
    assert CheckOk(s, id, s.mem.checks[id]);
    var c := SetReplyShape(cfg, s, id);
    CheckMoved(s, Apply(cfg, s, SetReply(id)), id, c, Sent);
  }

  lemma SetFailureKeepsChecks(cfg: Config, s: State, id: Id)
    requires cfg.Valid() && ChecksOk(s) && Enabled(cfg, s, SetFailure(id))
    ensures ChecksOk(Apply(cfg, s, SetFailure(id)))
  {
    assert CheckOk(s, id, s.mem.checks[id]);
    var c := SetFailureShape(cfg, s, id);
    CheckMoved(s, Apply(cfg, s, SetFailure(id)), id, c, Sent);
  }

  /** Events that leave the checks and their SETs alone. */
  predicate Aside(e: Event) {
    match e
    case Tick(_) => true
    case Health(_) => true
    case EnqueueAccepted(_) => true
    case EnqueueRejected(_) => true
    case JobAttempt(_, _, _) => true
    case DirectSettles(_, _, _) => true
    case RedisWiped => true
    case _ => false
  }

  lemma SetExecutionLeavesMemory(cfg: Config, s: State, id: Id)
    requires cfg.Valid() && Enabled(cfg, s, SetExecutes(id))
    ensures var t := Apply(cfg, s, SetExecutes(id));
      t.mem == s.mem && t.queue == s.queue && t.ledger == s.ledger && t.tables == s.tables && t.now == s.now
  {
  }

  lemma AsideLeavesChecks(cfg: Config, s: State, e: Event)
    requires cfg.Valid() && Enabled(cfg, s, e) && Aside(e)
    ensures var t := Apply(cfg, s, e); s.now <= t.now && t.mem.checks == s.mem.checks && t.sets == s.sets
  {
    match e
    case EnqueueRejected(id) => RejectionShape(cfg, s, id);
    case JobAttempt(id, o, f) => DeliveryLeavesMemory(cfg, s, id, o, f);
    case DirectSettles(id, o, f) => DeliveryLeavesMemory(cfg, s, id, o, f);
    case _ =>
  }

  lemma DeliveryLeavesMemory(cfg: Config, s: State, id: Id, o: Outcome, f: bool)
    requires cfg.Valid() && id in s.mem.checks
    ensures id in s.queue ==> var t := AttemptJob(cfg, s, id, o, f); t.now == s.now && t.mem == s.mem && t.sets == s.sets
    ensures var t := SettleDirect(cfg, s, id, o, f); t.now == s.now && t.mem == s.mem && t.sets == s.sets
  {
  }

  lemma ChecksKept(cfg: Config, s: State, e: Event)
    requires cfg.Valid() && ChecksOk(s) && Enabled(cfg, s, e)
    ensures ChecksOk(Apply(cfg, s, e))
  {
    match e
    case Begin(id, v) =>
      var t := Apply(cfg, s, e);
      CheckMoved(s, t, id, t.mem.checks[id], Sent);
    case CountReply(id, n) => CountReplyKeepsChecks(cfg, s, id, n);
    case CountFailure(id) => CountFailureKeepsChecks(cfg, s, id);
    case SetExecutes(id) => SetExecutionKeepsChecks(cfg, s, id);
    case SetReply(id) => SetReplyKeepsChecks(cfg, s, id);
    case SetFailure(id) => SetFailureKeepsChecks(cfg, s, id);
    case _ =>
      AsideLeavesChecks(cfg, s, e);
      ChecksUnchanged(s, Apply(cfg, s, e));
  }

  // ---------------------------------------------------------------- frames

  /** Checks are never forgotten, and what they read at their start stays. */
  ghost predicate KeepsStarts(s: State, t: State) {
    forall id :: id in s.mem.checks ==> id in t.mem.checks && SameStart(s.mem.checks[id], t.mem.checks[id])
  }

  /** Which events touch which part of the state. */
  ghost predicate Framed(s: State, e: Event, t: State) {
    && KeepsStarts(s, t) && s.now <= t.now
    && (t.sets == s.sets || e.SetExecutes? || e.CountReply?)
    && ((t.keys == s.keys && t.log == s.log) || e.SetExecutes? || e.RedisWiped?)
    && (t.ledger.lost == s.ledger.lost || e.RedisWiped?)
    && ((t.mem.direct == s.mem.direct && t.mem.local == s.mem.local) || e.CountReply? || e.SetFailure? || e.EnqueueRejected?)
    && ((t.mem.rejected == s.mem.rejected && t.mem.skipped == s.mem.skipped) || e.EnqueueRejected?)
    && (t.mem.pending == s.mem.pending || e.SetReply? || e.EnqueueAccepted? || e.EnqueueRejected?)
    && (t.queue == s.queue || e.EnqueueAccepted? || e.JobAttempt? || e.RedisWiped?)
    && (t.tables == s.tables || e.JobAttempt? || e.DirectSettles?)
    && ((t.ledger.completed == s.ledger.completed && t.ledger.exhausted == s.ledger.exhausted
         && t.ledger.unrecorded == s.ledger.unrecorded) || e.JobAttempt?)
    && ((t.ledger.directDone == s.ledger.directDone && t.ledger.directFailed == s.ledger.directFailed
         && t.ledger.doubleFailed == s.ledger.doubleFailed) || e.DirectSettles?)
    && (t.ledger.open == s.ledger.open || e.DirectSettles? || e.CountReply? || e.SetFailure? || e.EnqueueRejected?)
  }

  lemma CountReplyFramed(cfg: Config, s: State, id: Id, n: nat)
    requires cfg.Valid() && Enabled(cfg, s, CountReply(id, n))
    ensures Framed(s, CountReply(id, n), Apply(cfg, s, CountReply(id, n)))
  {
    var c := CountReplyShape(cfg, s, id, n);
  }

  lemma SetReplyFramed(cfg: Config, s: State, id: Id)
    requires cfg.Valid() && Enabled(cfg, s, SetReply(id))
    ensures Framed(s, SetReply(id), Apply(cfg, s, SetReply(id)))
  {
    var c := SetReplyShape(cfg, s, id);
  }

  lemma SetFailureFramed(cfg: Config, s: State, id: Id)
    requires cfg.Valid() && Enabled(cfg, s, SetFailure(id))
    ensures Framed(s, SetFailure(id), Apply(cfg, s, SetFailure(id)))
  {
    var c := SetFailureShape(cfg, s, id);
  }

  lemma JobAttemptFramed(cfg: Config, s: State, id: Id, o: Outcome, f: bool)
    requires cfg.Valid() && Enabled(cfg, s, JobAttempt(id, o, f))
    ensures Framed(s, JobAttempt(id, o, f), Apply(cfg, s, JobAttempt(id, o, f)))
  {
    var t := AttemptJob(cfg, s, id, o, f);
    assert t.mem == s.mem && t.sets == s.sets && t.keys == s.keys && t.log == s.log && t.now == s.now;
    assert t.ledger == s.ledger.(completed := t.ledger.completed, exhausted := t.ledger.exhausted, unrecorded := t.ledger.unrecorded);
  }

  lemma SettleFramed(cfg: Config, s: State, id: Id, o: Outcome, f: bool)
    requires cfg.Valid() && Enabled(cfg, s, DirectSettles(id, o, f))
    ensures Framed(s, DirectSettles(id, o, f), Apply(cfg, s, DirectSettles(id, o, f)))
  {
  }

  lemma SetExecutionFramed(cfg: Config, s: State, id: Id)
    requires cfg.Valid() && Enabled(cfg, s, SetExecutes(id))
    ensures Framed(s, SetExecutes(id), Apply(cfg, s, SetExecutes(id)))
  {
  }

  lemma QuietFramed(cfg: Config, s: State, e: Event)
    requires cfg.Valid() && Enabled(cfg, s, e)
    requires e.Tick? || e.Health? || e.Begin? || e.CountFailure? || e.EnqueueAccepted?
    ensures Framed(s, e, Apply(cfg, s, e))
  {
  }

  lemma StepFramed(cfg: Config, s: State, e: Event)
    requires cfg.Valid() && Enabled(cfg, s, e)
    ensures Framed(s, e, Apply(cfg, s, e))
  {
    match e
    case CountReply(id, n) => CountReplyFramed(cfg, s, id, n);
    case SetReply(id) => SetReplyFramed(cfg, s, id);
    case SetFailure(id) => SetFailureFramed(cfg, s, id);
    case EnqueueRejected(id) => RejectionShape(cfg, s, id);
    case JobAttempt(id, o, f) => JobAttemptFramed(cfg, s, id, o, f);
    case DirectSettles(id, o, f) => SettleFramed(cfg, s, id, o, f);
    case RedisWiped =>
    case SetExecutes(id) => SetExecutionFramed(cfg, s, id);
    case _ => QuietFramed(cfg, s, e);
  }

  // ---------------------------------------------------------------- SETs and keys

  lemma SetsUnchanged(cfg: Config, s: State, t: State)
    requires ChecksOk(s) && ChecksOk(t) && SetsOk(cfg, s)
    requires KeepsStarts(s, t) && s.now <= t.now && t.sets == s.sets
    requires forall h :: h in t.ledger.lost ==> (h in s.ledger.lost && t.ledger.lost[h] == s.ledger.lost[h]) || t.ledger.lost[h] == s.now
    ensures SetsOk(cfg, t)
  {
    forall id | id in t.sets ensures SetOk(cfg, t, id) {
      assert SetOk(cfg, s, id);
      assert CheckOk(s, id, s.mem.checks[id]);
      assert SameStart(s.mem.checks[id], t.mem.checks[id]);
      if t.sets[id].Refused? {
        assert SameStart(s.mem.checks[t.sets[id].holder], t.mem.checks[t.sets[id].holder]);
      }
    }
  }

  /** One SET of a check moves on; no winner changes. */
  lemma SetMoved(cfg: Config, s: State, t: State, id: Id)
    requires ChecksOk(s) && ChecksOk(t) && SetsOk(cfg, s)
    requires KeepsStarts(s, t) && t.now == s.now && t.ledger.lost == s.ledger.lost
    requires id in t.sets && t.sets == s.sets[id := t.sets[id]] && (id in s.sets ==> s.sets[id] == Sent)
    requires SetOk(cfg, t, id)
    ensures SetsOk(cfg, t)
  {
    forall x | x in t.sets ensures SetOk(cfg, t, x) {
      if x != id {
        assert SetOk(cfg, s, x);
        assert SameStart(s.mem.checks[x], t.mem.checks[x]);
        if t.sets[x].Refused? {
          assert SameStart(s.mem.checks[t.sets[x].holder], t.mem.checks[t.sets[x].holder]);
        }
      }
    }
  }

  lemma SetExecutionKeepsSets(cfg: Config, s: State, id: Id)
    requires cfg.Valid() && ChecksOk(s) && SetsOk(cfg, s) && KeysOk(cfg, s) && Enabled(cfg, s, SetExecutes(id))
    requires ChecksOk(Apply(cfg, s, SetExecutes(id)))
    ensures SetsOk(cfg, Apply(cfg, s, SetExecutes(id)))
  {
    assert CheckOk(s, id, s.mem.checks[id]);
    SetMoved(cfg, s, Apply(cfg, s, SetExecutes(id)), id);
  }

  lemma CountReplyKeepsSets(cfg: Config, s: State, id: Id, n: nat)
    requires cfg.Valid() && ChecksOk(s) && SetsOk(cfg, s) && Enabled(cfg, s, CountReply(id, n))
    requires ChecksOk(Apply(cfg, s, CountReply(id, n)))
    ensures SetsOk(cfg, Apply(cfg, s, CountReply(id, n)))
  {
    var t := Apply(cfg, s, CountReply(id, n));
    assert CheckOk(s, id, s.mem.checks[id]);
    CountReplyFramed(cfg, s, id, n);
    var c := CountReplyShape(cfg, s, id, n);
    if c.phase == Locking {
      SetMoved(cfg, s, t, id);
    } else {
      SetsUnchanged(cfg, s, t);
    }
  }

  lemma SetsKept(cfg: Config, s: State, e: Event)
    requires cfg.Valid() && ChecksOk(s) && SetsOk(cfg, s) && KeysOk(cfg, s) && Enabled(cfg, s, e)
    requires ChecksOk(Apply(cfg, s, e))
    ensures SetsOk(cfg, Apply(cfg, s, e))
  {
    match e
    case CountReply(id, n) => CountReplyKeepsSets(cfg, s, id, n);
    case SetExecutes(id) => SetExecutionKeepsSets(cfg, s, id);
    case RedisWiped => SetsUnchanged(cfg, s, Apply(cfg, s, RedisWiped));
    case _ => OthersKeepSets(cfg, s, e);
  }

  lemma OthersKeepSets(cfg: Config, s: State, e: Event)
    requires cfg.Valid() && ChecksOk(s) && SetsOk(cfg, s) && Enabled(cfg, s, e)
    requires ChecksOk(Apply(cfg, s, e)) && !e.CountReply? && !e.SetExecutes? && !e.RedisWiped?
    ensures SetsOk(cfg, Apply(cfg, s, e))
  {
    StepFramed(cfg, s, e);
    SetsUnchanged(cfg, s, Apply(cfg, s, e));
  }

  /** No winner loses its place when a SET that has not won moves. */
  ghost predicate KeepsWinners(s: State, t: State) {
    forall id :: id in s.sets && s.sets[id] != Sent ==> id in t.sets && t.sets[id] == s.sets[id]
  }

  lemma StepKeepsWinners(cfg: Config, s: State, e: Event)
    requires cfg.Valid() && ChecksOk(s) && Enabled(cfg, s, e)
    ensures KeepsWinners(s, Apply(cfg, s, e))
  {
    match e
    case CountReply(id, n) =>
      assert CheckOk(s, id, s.mem.checks[id]);
      var c := CountReplyShape(cfg, s, id, n);
    case SetExecutes(id) =>
    case _ => StepFramed(cfg, s, e);
  }
}
