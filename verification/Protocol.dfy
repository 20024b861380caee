/**
 The alert decision as an interleaved state machine.

 `DetectorService.check` is cut at its awaits: between two awaits it runs alone, so each piece is one atomic step. Many
 checks run at once over the process memory, the Redis keys, the alert queue and the two history tables. Counting is
 abstract here (any answer may come back); CounterRuns says what the answers are.
 */
module Protocol {
  import opened Common
  import opened Alerts

  type Id = nat

  /**
   `latency` bounds the time from the clock read of a check to its own later steps and to the execution of its SET on
   the server. The other fields are the program's settings; `attempts` is the retry limit of a job.
   */
  datatype Config = Config(window: nat, threshold: nat, cooldown: nat, latency: nat, attempts: nat, webhook: bool) {
    predicate Valid() {
      window > 0 && cooldown > 0 && attempts > 0
    }
  }

  // ---------------------------------------------------------------- the process

  datatype Verdict = BelowThreshold | Granted | SentDirectly | HeldByRedis | HeldByMemory | DbFailed

  datatype Phase =
    | CountingInRedis
    | CountingInDb
    | Locking
    | Ended(verdict: Verdict)

  /** One call of `check`: what it has read so far and where it stands. */
  datatype Check = Check(service: Service, readAt: Time, sawHealthy: bool, count: nat, redisAwaits: nat, phase: Phase)

  /** A direct send: the time handed to the memory cooldown, which may be stale, and the time it happened. */
  datatype Direct = Direct(id: Id, service: Service, stamp: Time, firedAt: Time)

  /** The memory of the process. `rejected`, `skipped` and `direct` are history. */
  datatype Memory = Memory(
    checks: map<Id, Check>,
    local: map<Service, Time>,
    pending: set<Id>,
    rejected: set<Id>,
    skipped: set<Id>,
    direct: seq<Direct>)

  function WithPhase(m: Memory, id: Id, phase: Phase): Memory
    requires id in m.checks
  {
    m.(checks := m.checks[id := m.checks[id].(phase := phase)])
  }

  predicate LocalFree(local: map<Service, Time>, service: Service, t: Time) {
    service in local ==> local[service] <= t
  }

  /** Both direct-send sites: send only after taking the memory cooldown. */
  function SendIfFree(cfg: Config, m: Memory, id: Id, service: Service, stamp: Time, now: Time): Memory {
    if LocalFree(m.local, service, stamp)
    then m.(local := m.local[service := stamp + cfg.cooldown], direct := m.direct + [Direct(id, service, stamp, now)])
    else m
  }

  /** The piece up to the first await: clock and flag are read together, and the flag picks the counter. */
  function BeginCheck(m: Memory, id: Id, service: Service, now: Time, healthy: bool): Memory {
    m.(checks := m.checks[id := Check(service, now, healthy, 0,
                                      if healthy then 1 else 0,
                                      if healthy then CountingInRedis else CountingInDb)])
  }

  /** The degraded path, run with the time read at the start of the check. */
  function Degrade(cfg: Config, m: Memory, id: Id, now: Time): Memory
    requires id in m.checks
  {
    var c := m.checks[id];
    var free := LocalFree(m.local, c.service, c.readAt);
    WithPhase(SendIfFree(cfg, m, id, c.service, c.readAt, now), id, Ended(if free then SentDirectly else HeldByMemory))
  }

  /** The piece that runs when the count has arrived. */
  function AfterCount(cfg: Config, m: Memory, id: Id, count: nat, now: Time): Memory
    requires id in m.checks
  {
    var c := m.checks[id].(count := count);
    var m1 := m.(checks := m.checks[id := c]);
    if count <= cfg.threshold then WithPhase(m1, id, Ended(BelowThreshold))
    else if c.sawHealthy then m1.(checks := m1.checks[id := c.(phase := Locking, redisAwaits := c.redisAwaits + 1)])
    else Degrade(cfg, m1, id, now)
  }

  /** A failed count falls back from Redis to the database once; a failed database count fails the request. */
  function AfterCountFailure(m: Memory, id: Id): Memory
    requires id in m.checks
  {
    WithPhase(m, id, if m.checks[id].phase == CountingInRedis then CountingInDb else Ended(DbFailed))
  }

  /** The piece that runs on the reply to SET: the winner starts an enqueue and does not wait for it. */
  function AfterLock(m: Memory, id: Id, acquired: bool): Memory
    requires id in m.checks
  {
    if acquired then WithPhase(m, id, Ended(Granted)).(pending := m.pending + {id})
    else WithPhase(m, id, Ended(HeldByRedis))
  }

  /** The catch handler of the enqueue: a fresh clock for the cooldown, the old data for the alert. */
  function AfterEnqueueRejected(cfg: Config, m: Memory, id: Id, now: Time): Memory
    requires id in m.checks
  {
    var service := m.checks[id].service;
    var m1 := m.(pending := m.pending - {id}, rejected := m.rejected + {id});
    if LocalFree(m.local, service, now) then SendIfFree(cfg, m1, id, service, now, now)
    else m1.(skipped := m.skipped + {id})
  }

  // ---------------------------------------------------------------- the world around it

  /** The SET of a check as the server sees it; it may execute after the client gave up. */
  datatype SetCommand = Sent | Won(at: Time) | Refused(holder: Id, at: Time)

  datatype CooldownKey = CooldownKey(owner: Id, setAt: Time, expiresAt: Time)

  /** History of the cooldown keys: who took one when, and which live ones a data loss destroyed. */
  datatype LockEvent = Acquired(service: Service, at: Time, id: Id) | Wiped(at: Time, live: set<Service>)

  /** Where the alerts went: by the queue (first three and `lost`), or directly (the last four). */
  datatype Ledger = Ledger(
    completed: set<Id>,
    exhausted: set<Id>,
    unrecorded: set<Id>,
    lost: map<Id, Time>,
    open: set<Id>,
    directDone: set<Id>,
    directFailed: set<Id>,
    doubleFailed: set<Id>)

  datatype State = State(
    now: Time,
    healthy: bool,
    mem: Memory,
    sets: map<Id, SetCommand>,
    keys: map<Service, CooldownKey>,
    log: seq<LockEvent>,
    queue: map<Id, nat>,
    tables: Tables,
    ledger: Ledger)

  function Start(now: Time): State {
    State(now, true, Memory(map[], map[], {}, {}, {}, []), map[], map[], [], map[], Tables([], [], []),
          Ledger({}, {}, {}, map[], {}, {}, {}, {}))
  }

  datatype Event =
    | Tick(ms: nat)
    | Health(up: bool)
    | Begin(id: Id, service: Service)
    | CountReply(id: Id, count: nat)
    | CountFailure(id: Id)
    | SetExecutes(id: Id)
    | SetReply(id: Id)
    | SetFailure(id: Id)
    | EnqueueAccepted(id: Id)
    | EnqueueRejected(id: Id)
    | JobAttempt(id: Id, outcome: Outcome, failureInsertOk: bool)
    | DirectSettles(id: Id, outcome: Outcome, failureInsertOk: bool)
    | RedisWiped

  predicate KeyLive(s: State, service: Service) {
    service in s.keys && s.now < s.keys[service].expiresAt
  }

  predicate InPhase(s: State, id: Id, p: Phase) {
    id in s.mem.checks && s.mem.checks[id].phase == p
  }

  predicate Timely(cfg: Config, s: State, id: Id)
    requires id in s.mem.checks
  {
    s.now <= s.mem.checks[id].readAt + cfg.latency
  }

  predicate Enabled(cfg: Config, s: State, e: Event) {
    match e
    case Tick(_) => true
    case Health(_) => true
    case Begin(id, _) => id !in s.mem.checks
    case CountReply(id, _) => (InPhase(s, id, CountingInRedis) || InPhase(s, id, CountingInDb)) && Timely(cfg, s, id)
    case CountFailure(id) => InPhase(s, id, CountingInRedis) || InPhase(s, id, CountingInDb)
    case SetExecutes(id) => id in s.sets && s.sets[id] == Sent && id in s.mem.checks && Timely(cfg, s, id)
    case SetReply(id) => InPhase(s, id, Locking) && id in s.sets && s.sets[id] != Sent
    case SetFailure(id) => InPhase(s, id, Locking) && Timely(cfg, s, id)
    case EnqueueAccepted(id) => id in s.mem.pending
    case EnqueueRejected(id) => id in s.mem.pending && id in s.mem.checks
    case JobAttempt(id, _, _) => id in s.queue && s.queue[id] < cfg.attempts && id in s.mem.checks
    case DirectSettles(id, _, _) => id in s.ledger.open && id in s.mem.checks
    case RedisWiped => true
  }

  /** What a check puts into the queue or sends directly. */
  function AlertOf(cfg: Config, id: Id, c: Check): (j: Job)
    requires cfg.Valid()
  {
    Job(id, JobData(c.service, c.count, cfg.threshold, cfg.window, BucketStart(c.readAt, cfg.window)))
  }

  /** The server's side of SET NX EX. */
  function ExecuteSet(cfg: Config, s: State, id: Id): State
    requires id in s.mem.checks
  {
    var service := s.mem.checks[id].service;
    if KeyLive(s, service) then
      s.(sets := s.sets[id := Refused(s.keys[service].owner, s.now)])
    else
      s.(sets := s.sets[id := Won(s.now)],
         keys := s.keys[service := CooldownKey(id, s.now, s.now + cfg.cooldown)],
         log := s.log + [Acquired(service, s.now, id)])
  }

  /** A direct send leaves the process as an open promise. */
  function Opened(before: Memory, after: Memory, open: set<Id>, id: Id): set<Id> {
    if |after.direct| > |before.direct| then open + {id} else open
  }

  function AttemptJob(cfg: Config, s: State, id: Id, o: Outcome, failureInsertOk: bool): State
    requires cfg.Valid() && id in s.queue && id in s.mem.checks
  {
    var made := s.queue[id];
    var job := AlertOf(cfg, id, s.mem.checks[id]);
    var t := AfterAttempt(cfg.webhook, cfg.attempts, s.tables, job, made, o, failureInsertOk);
    match NextJobState(cfg.webhook, cfg.attempts, made, o, failureInsertOk)
    case Waiting(m) => s.(tables := t, queue := s.queue[id := m])
    case Completed => s.(tables := t, queue := s.queue - {id}, ledger := s.ledger.(completed := s.ledger.completed + {id}))
    case Exhausted(recorded) =>
      if recorded
      then s.(tables := t, queue := s.queue - {id}, ledger := s.ledger.(exhausted := s.ledger.exhausted + {id}))
      else s.(tables := t, queue := s.queue - {id}, ledger := s.ledger.(unrecorded := s.ledger.unrecorded + {id}))
  }

  function SettleDirect(cfg: Config, s: State, id: Id, o: Outcome, failureInsertOk: bool): State
    requires cfg.Valid() && id in s.mem.checks
  {
    var t := AfterDirect(cfg.webhook, s.tables, AlertOf(cfg, id, s.mem.checks[id]), o, failureInsertOk);
    var l := s.ledger.(open := s.ledger.open - {id});
    if Dispatches(cfg.webhook, o) then s.(tables := t, ledger := l.(directDone := l.directDone + {id}))
    else if failureInsertOk then s.(tables := t, ledger := l.(directFailed := l.directFailed + {id}))
    else s.(tables := t, ledger := l.(doubleFailed := l.doubleFailed + {id}))
  }

  /** Redis comes back empty: the keys and the jobs it held are gone. */
  function Wipe(s: State): State {
    s.(keys := map[],
       queue := map[],
       log := s.log + [Wiped(s.now, set v | v in s.keys && KeyLive(s, v))],
       ledger := s.ledger.(lost := s.ledger.lost + (map id | id in s.queue :: s.now)))
  }

  function Apply(cfg: Config, s: State, e: Event): State
    requires cfg.Valid() && Enabled(cfg, s, e)
  {
    match e
    case Tick(ms) => s.(now := s.now + ms)
    case Health(up) => s.(healthy := up)
    case Begin(id, service) => s.(mem := BeginCheck(s.mem, id, service, s.now, s.healthy))
    case CountReply(id, count) =>
      var m := AfterCount(cfg, s.mem, id, count, s.now);
      s.(mem := m,
         sets := if m.checks[id].phase == Locking then s.sets[id := Sent] else s.sets,
         ledger := s.ledger.(open := Opened(s.mem, m, s.ledger.open, id)))
    case CountFailure(id) => s.(mem := AfterCountFailure(s.mem, id))
    case SetExecutes(id) => ExecuteSet(cfg, s, id)
    case SetReply(id) => s.(mem := AfterLock(s.mem, id, s.sets[id].Won?))
    case SetFailure(id) =>
      var m := Degrade(cfg, s.mem, id, s.now);
      s.(mem := m, ledger := s.ledger.(open := Opened(s.mem, m, s.ledger.open, id)))
    case EnqueueAccepted(id) => s.(mem := s.mem.(pending := s.mem.pending - {id}), queue := s.queue[id := 0])
    case EnqueueRejected(id) =>
      var m := AfterEnqueueRejected(cfg, s.mem, id, s.now);
      s.(mem := m, ledger := s.ledger.(open := Opened(s.mem, m, s.ledger.open, id)))
    case JobAttempt(id, o, failureInsertOk) => AttemptJob(cfg, s, id, o, failureInsertOk)
    case DirectSettles(id, o, failureInsertOk) => SettleDirect(cfg, s, id, o, failureInsertOk)
    case RedisWiped => Wipe(s)
  }

  // ---------------------------------------------------------------- runs

  /** `states` is a run of the system under `events`. */
  ghost predicate Run(cfg: Config, states: seq<State>, events: seq<Event>) {
    && cfg.Valid()
    && |states| == |events| + 1
    && states[0] == Start(states[0].now)
    && forall i :: 0 <= i < |events| ==>
        Enabled(cfg, states[i], events[i]) && states[i + 1] == Apply(cfg, states[i], events[i])
  }
}
