/** The main results about every run of the alert protocol. */
module ProtocolTheorems {
  import opened Common
  import opened Alerts
  import opened Protocol
  import opened Histories
  import opened ProtocolInvariants
  import opened ProtocolAccounts

  // ---------------------------------------------------------------- bounded silence

  /** The alert behind a won lock is on its way, has ended in the history, or went down with Redis after `t`. */
  ghost predicate UnderWay(s: State, h: Id, t: Time) {
    || InPhase(s, h, Locking)
    || h in s.mem.pending
    || h in s.queue
    || h in s.ledger.completed || h in s.ledger.exhausted || h in s.ledger.unrecorded
    || (h in s.ledger.lost && t <= s.ledger.lost[h])
  }

  /** Somebody else's alert stands for the silence of a check of `v` that read the clock at `t`. */
  ghost predicate CoveredWithin(cfg: Config, s: State, v: Service, t: Time, reach: int)
    requires s.sets.Keys <= s.mem.checks.Keys
  {
    || (exists h :: && h in s.sets && s.sets[h].Won? && s.mem.checks[h].service == v
                    && t - cfg.cooldown < s.sets[h].at && UnderWay(s, h, t))
    || SentAfter(s.mem.direct, v, t - reach)
  }

  /** How far back the direct send may lie: two cooldowns and the latency, less the millisecond in which a key is gone. */
  function SilenceReach(cfg: Config): int {
    2 * cfg.cooldown + cfg.latency - 1
  }

  ghost predicate Covered(cfg: Config, s: State, v: Service, t: Time)
    requires s.sets.Keys <= s.mem.checks.Keys
  {
    CoveredWithin(cfg, s, v, t, SilenceReach(cfg))
  }

  /** A check that was over the threshold and ended without an alert of its own. */
  ghost predicate Silent(s: State, id: Id) {
    InPhase(s, id, Ended(HeldByRedis)) || InPhase(s, id, Ended(HeldByMemory)) || id in s.mem.skipped
  }

  lemma SentAfterWeaker(direct: seq<Direct>, v: Service, t: int, u: int)
    requires SentAfter(direct, v, t) && u <= t
    ensures SentAfter(direct, v, u)
  {
    var i :| 0 <= i < |direct| && direct[i].service == v && direct[i].stamp > t;
    assert direct[i].stamp > u;
  }

  /** A rejected grant left a direct send behind, its own or the one it was skipped for. */
  lemma RejectedOutcome(cfg: Config, s: State, h: Id)
    requires cfg.Valid() && s.sets.Keys <= s.mem.checks.Keys && HeldOk(cfg, s) && h in s.mem.rejected
    ensures h in s.sets && s.sets[h].Won?
    ensures SentAfter(s.mem.direct, s.mem.checks[h].service, s.sets[h].at - cfg.latency - cfg.cooldown)
  {
    SentAfterWeaker(s.mem.direct, s.mem.checks[h].service,
                    if h in s.mem.skipped then s.sets[h].at - cfg.cooldown else s.sets[h].at - 1,
                    s.sets[h].at - cfg.latency - cfg.cooldown);
  }

  /** So did a winner that never heard of its lock and took the degraded path. */
  lemma DeafWinnerOutcome(cfg: Config, s: State, h: Id)
    requires cfg.Valid() && ChecksOk(s) && SetsOk(cfg, s) && HeldOk(cfg, s) && h in s.sets && s.sets[h].Won?
    requires s.mem.checks[h].phase == Ended(SentDirectly) || s.mem.checks[h].phase == Ended(HeldByMemory)
    ensures SentAfter(s.mem.direct, s.mem.checks[h].service, s.sets[h].at - cfg.latency - cfg.cooldown)
  {
    var c := s.mem.checks[h];
    assert SetOk(cfg, s, h);
    SentAfterWeaker(s.mem.direct, c.service,
                    if c.phase == Ended(SentDirectly) then c.readAt - 1 else c.readAt - cfg.cooldown,
                    s.sets[h].at - cfg.latency - cfg.cooldown);
  }

  ghost predicate InSomeAccount(s: State, h: Id) {
    || h in s.mem.pending || h in s.queue
    || h in s.ledger.completed || h in s.ledger.exhausted || h in s.ledger.unrecorded
    || h in s.ledger.lost || h in s.mem.rejected
  }

  lemma GrantIsSomewhere(s: State, h: Id)
    requires GrantsOk(s) && InPhase(s, h, Ended(Granted))
    ensures InSomeAccount(s, h)
  {
    assert h in GrantedIds(s.mem);
  }

  lemma WinnerPhase(s: State, h: Id)
    requires ChecksOk(s) && h in s.sets && s.sets[h].Won?
    ensures var p := s.mem.checks[h].phase;
      p == Locking || p == Ended(Granted) || p == Ended(SentDirectly) || p == Ended(HeldByMemory)
  {
    assert CheckOk(s, h, s.mem.checks[h]);
  }

  /** What became of a check whose SET won. */
  lemma WinnerOutcome(cfg: Config, s: State, h: Id)
    requires cfg.Valid() && ChecksOk(s) && SetsOk(cfg, s) && HeldOk(cfg, s) && GrantsOk(s) && h in s.sets && s.sets[h].Won?
    ensures || InPhase(s, h, Locking)
            || (InSomeAccount(s, h) && h !in s.mem.rejected)
            || SentAfter(s.mem.direct, s.mem.checks[h].service, s.sets[h].at - cfg.latency - cfg.cooldown)
  {
    WinnerPhase(s, h);
    if h in s.mem.rejected {
      RejectedOutcome(cfg, s, h);
    } else if s.mem.checks[h].phase == Ended(Granted) {
      GrantIsSomewhere(s, h);
    } else if s.mem.checks[h].phase != Locking {
      DeafWinnerOutcome(cfg, s, h);
    }
  }

  lemma RefusedIsCovered(cfg: Config, s: State, id: Id)
    requires cfg.Valid() && ChecksOk(s) && SetsOk(cfg, s) && HeldOk(cfg, s) && GrantsOk(s) && InPhase(s, id, Ended(HeldByRedis))
    ensures Covered(cfg, s, s.mem.checks[id].service, s.mem.checks[id].readAt)
  {
    var c := s.mem.checks[id];
    assert CheckOk(s, id, c);
    assert SetOk(cfg, s, id);
    var h := s.sets[id].holder;
    WinnerOutcome(cfg, s, h);
    if SentAfter(s.mem.direct, c.service, s.sets[h].at - cfg.latency - cfg.cooldown) {
      SentAfterWeaker(s.mem.direct, c.service, s.sets[h].at - cfg.latency - cfg.cooldown,
                      c.readAt - SilenceReach(cfg));
    } else {
      assert UnderWay(s, h, c.readAt);
    }
  }

  lemma SilentIsCovered(cfg: Config, s: State, id: Id)
    requires cfg.Valid() && ChecksOk(s) && SetsOk(cfg, s) && HeldOk(cfg, s) && GrantsOk(s) && s.mem.skipped <= s.mem.rejected
    requires Silent(s, id)
    ensures id in s.mem.checks && Covered(cfg, s, s.mem.checks[id].service, s.mem.checks[id].readAt)
  {
    if InPhase(s, id, Ended(HeldByRedis)) {
      RefusedIsCovered(cfg, s, id);
    } else if InPhase(s, id, Ended(HeldByMemory)) {
      var c := s.mem.checks[id];
      SentAfterWeaker(s.mem.direct, c.service, c.readAt - cfg.cooldown, c.readAt - SilenceReach(cfg));
    } else {
      assert id in s.mem.rejected;
      assert SetOk(cfg, s, id);
      var c := s.mem.checks[id];
      SentAfterWeaker(s.mem.direct, c.service, s.sets[id].at - cfg.cooldown, c.readAt - SilenceReach(cfg));
    }
  }

  /**
   Bounded silence. In every state of every run, whatever crashes, timeouts and rejections came before, a check that was
   over the threshold and stayed silent is covered: by an alert that took the Redis cooldown less than one cooldown
   before and is under way, has ended (in the history, or with both its inserts failed) or went down with Redis since, or by
   a direct send, whatever became of it, stamped less than two cooldowns and the latency before.
   */
  lemma BoundedSilence(cfg: Config, states: seq<State>, events: seq<Event>, i: nat, id: Id)
    requires Run(cfg, states, events) && i < |states|
    requires Silent(states[i], id)
    ensures var s := states[i];
      && id in s.mem.checks && s.sets.Keys <= s.mem.checks.Keys
      && Covered(cfg, s, s.mem.checks[id].service, s.mem.checks[id].readAt)
  {
    RunKeepsInv(cfg, states, events, i);
    SilentIsCovered(cfg, states[i], id);
  }

  // ---------------------------------------------------------------- every check over the threshold is answered

  /** A count decides between silence for cause and the alert path. */
  ghost predicate CountDecides(cfg: Config, m: Memory) {
    forall id :: id in m.checks ==> DecidedByCount(cfg, m.checks[id])
  }

  predicate DecidedByCount(cfg: Config, c: Check) {
    && (c.phase == Ended(BelowThreshold) ==> c.count <= cfg.threshold)
    && (c.phase == Locking || (c.phase.Ended? && c.phase.verdict != BelowThreshold && c.phase.verdict != DbFailed) ==>
          c.count > cfg.threshold)
  }

  lemma StepDecides(cfg: Config, s: State, e: Event)
    requires cfg.Valid() && Enabled(cfg, s, e) && CountDecides(cfg, s.mem)
    ensures CountDecides(cfg, Apply(cfg, s, e).mem)
  {
    match e
    case CountReply(id, n) => CountReplyDecides(cfg, s, id, n);
    case SetReply(id) => ReplyOrFailureDecides(cfg, s, e, id);
    case SetFailure(id) => ReplyOrFailureDecides(cfg, s, e, id);
    case Begin(id, _) => StartOrFallbackDecides(cfg, s, e, id);
    case CountFailure(id) => StartOrFallbackDecides(cfg, s, e, id);
    case SetExecutes(id) => SetExecutionLeavesMemory(cfg, s, id);
    case _ => AsideDecides(cfg, s, e);
  }

  lemma AsideDecides(cfg: Config, s: State, e: Event)
    requires cfg.Valid() && Enabled(cfg, s, e) && CountDecides(cfg, s.mem) && Aside(e)
    ensures CountDecides(cfg, Apply(cfg, s, e).mem)
  {
    AsideLeavesChecks(cfg, s, e);
  }

  lemma CountReplyDecides(cfg: Config, s: State, id: Id, n: nat)
    requires cfg.Valid() && Enabled(cfg, s, CountReply(id, n)) && CountDecides(cfg, s.mem)
    ensures CountDecides(cfg, Apply(cfg, s, CountReply(id, n)).mem)
  {
    var c := CountReplyShape(cfg, s, id, n);
    OneCheckDecides(cfg, s, Apply(cfg, s, CountReply(id, n)), id, c);
  }

  lemma ReplyOrFailureDecides(cfg: Config, s: State, e: Event, id: Id)
    requires cfg.Valid() && Enabled(cfg, s, e) && CountDecides(cfg, s.mem) && (e == SetReply(id) || e == SetFailure(id))
    ensures CountDecides(cfg, Apply(cfg, s, e).mem)
  {
    assert DecidedByCount(cfg, s.mem.checks[id]);
    var c: Check;
    if e.SetReply? {
      c := SetReplyShape(cfg, s, id);
    } else {
      c := SetFailureShape(cfg, s, id);
    }
    OneCheckDecides(cfg, s, Apply(cfg, s, e), id, c);
  }

  lemma StartOrFallbackDecides(cfg: Config, s: State, e: Event, id: Id)
    requires cfg.Valid() && Enabled(cfg, s, e) && CountDecides(cfg, s.mem)
    requires e == CountFailure(id) || (e.Begin? && e.id == id)
    ensures CountDecides(cfg, Apply(cfg, s, e).mem)
  {
    var t := Apply(cfg, s, e);
    OneCheckDecides(cfg, s, t, id, t.mem.checks[id]);
  }

  lemma OneCheckDecides(cfg: Config, s: State, t: State, id: Id, c: Check)
    requires CountDecides(cfg, s.mem) && t.mem.checks == s.mem.checks[id := c] && DecidedByCount(cfg, c)
    ensures CountDecides(cfg, t.mem)
  {
    forall x | x in t.mem.checks ensures DecidedByCount(cfg, t.mem.checks[x]) {
      assert x != id ==> DecidedByCount(cfg, s.mem.checks[x]);
    }
  }

  lemma {:induction false} RunDecides(cfg: Config, states: seq<State>, events: seq<Event>, i: nat)
    requires Run(cfg, states, events) && i < |states|
    ensures CountDecides(cfg, states[i].mem)
  {
    if i > 0 {
      RunDecides(cfg, states, events, i - 1);
      StepDecides(cfg, states[i - 1], events[i - 1]);
    }
  }

  /** An alert of this very check: sent directly, or granted and neither skipped nor forgotten. */
  ghost predicate OwnAlert(s: State, id: Id) {
    id in DirectIds(s.mem.direct) || (id in GrantedIds(s.mem) && InSomeAccount(s, id) && id !in s.mem.rejected)
  }

  lemma EndedIsOwnOrSilent(s: State, id: Id)
    requires GrantsOk(s) && DirectsOk(s) && id in s.mem.checks && s.mem.checks[id].phase.Ended?
    requires s.mem.checks[id].phase.verdict != BelowThreshold && s.mem.checks[id].phase.verdict != DbFailed
    ensures OwnAlert(s, id) || Silent(s, id)
  {
    if s.mem.checks[id].phase == Ended(Granted) {
      GrantIsSomewhere(s, id);
      assert id in GrantedIds(s.mem);
    } else if s.mem.checks[id].phase == Ended(SentDirectly) {
      assert id in DegradedIds(s.mem);
    }
  }

  /**
   Fail-open. In every state of every run, a check that ended without a failure of the database either found no more
   errors than the threshold, or has an alert of its own, or is covered by another one; and it is the count alone that
   separates the first case from the others.
   */
  lemma OverThresholdIsAnswered(cfg: Config, states: seq<State>, events: seq<Event>, i: nat, id: Id)
    requires Run(cfg, states, events) && i < |states|
    requires id in states[i].mem.checks && states[i].mem.checks[id].phase.Ended?
    requires states[i].mem.checks[id].phase.verdict != DbFailed
    ensures var s := states[i]; var c := s.mem.checks[id];
      && (c.count <= cfg.threshold <==> c.phase.verdict == BelowThreshold)
      && s.sets.Keys <= s.mem.checks.Keys
      && (c.count > cfg.threshold ==> OwnAlert(s, id) || Covered(cfg, s, c.service, c.readAt))
  {
    RunDecides(cfg, states, events, i);
    assert DecidedByCount(cfg, states[i].mem.checks[id]);
    RunKeepsInv(cfg, states, events, i);
    if states[i].mem.checks[id].phase.verdict != BelowThreshold {
      EndedIsOwnOrSilent(states[i], id);
      if Silent(states[i], id) {
        BoundedSilence(cfg, states, events, i, id);
      }
    }
  }

  // ---------------------------------------------------------------- bounded duplication

  /** Grants of `v` whose lock was taken in the interval. */
  ghost function GrantsIn(s: State, v: Service, lo: Time, hi: Time): set<Id>
    requires s.sets.Keys <= s.mem.checks.Keys
  {
    set id | id in GrantedIds(s.mem) && id in s.sets && s.sets[id].Won? && s.mem.checks[id].service == v
             && lo <= s.sets[id].at <= hi
  }

  ghost function LockIds(log: seq<LockEvent>, v: Service, lo: Time, hi: Time): (r: set<Id>)
    ensures forall e :: e in log && LockIn(e, v, lo, hi) ==> e.id in r
    ensures |r| <= Locks(log, v, lo, hi)
  {
    if log == [] then {}
    else
      var before := LockIds(log[..|log| - 1], v, lo, hi);
      var e := log[|log| - 1];
      if LockIn(e, v, lo, hi) then before + {e.id} else before
  }

  lemma GrantsAreLocks(cfg: Config, s: State, v: Service, lo: Time, hi: Time)
    requires s.sets.Keys <= s.mem.checks.Keys && LogOk(cfg, s)
    ensures |GrantsIn(s, v, lo, hi)| <= Locks(s.log, v, lo, hi)
  {
    var ids := LockIds(s.log, v, lo, hi);
    forall id | id in GrantsIn(s, v, lo, hi) ensures id in ids {
      assert LockIn(Acquired(s.mem.checks[id].service, s.sets[id].at, id), v, lo, hi);
    }
    SubsetSize(GrantsIn(s, v, lo, hi), ids);
  }

  /** The direct sends of `v` in the interval, by position. */
  ghost function SendsIn(direct: seq<Direct>, v: Service, lo: Time, hi: Time): set<nat> {
    set k: nat | k < |direct| && direct[k].service == v && lo <= direct[k].firedAt <= hi
  }

  /** The losses in the interval that took a live key of `v`, by position. */
  ghost function LossesIn(log: seq<LockEvent>, v: Service, lo: Time, hi: Time): set<nat> {
    set k: nat | k < |log| && log[k].Wiped? && v in log[k].live && lo <= log[k].at <= hi
  }

  lemma {:induction false} SendsCounted(direct: seq<Direct>, v: Service, lo: Time, hi: Time)
    ensures Sends(direct, v, lo, hi) == |SendsIn(direct, v, lo, hi)|
  {
    if direct == [] {
      assert SendsIn(direct, v, lo, hi) == {};
    } else {
      SendsCounted(direct[..|direct| - 1], v, lo, hi);
      LastSend(direct, v, lo, hi);
    }
  }

  lemma LastSend(direct: seq<Direct>, v: Service, lo: Time, hi: Time)
    requires direct != []
    ensures var last := |direct| - 1; var hit := direct[last].service == v && lo <= direct[last].firedAt <= hi;
      |SendsIn(direct, v, lo, hi)| == |SendsIn(direct[..last], v, lo, hi)| + if hit then 1 else 0
  {
    var last := |direct| - 1;
    var hit := direct[last].service == v && lo <= direct[last].firedAt <= hi;
    assert SendsIn(direct, v, lo, hi) == SendsIn(direct[..last], v, lo, hi) + if hit then {last} else {};
  }

  lemma {:induction false} LossesCounted(log: seq<LockEvent>, v: Service, lo: Time, hi: Time)
    ensures Losses(log, v, lo, hi) == |LossesIn(log, v, lo, hi)|
  {
    if log == [] {
      assert LossesIn(log, v, lo, hi) == {};
    } else {
      LossesCounted(log[..|log| - 1], v, lo, hi);
      LastLoss(log, v, lo, hi);
    }
  }

  lemma LastLoss(log: seq<LockEvent>, v: Service, lo: Time, hi: Time)
    requires log != []
    ensures var last := |log| - 1; var hit := log[last].Wiped? && v in log[last].live && lo <= log[last].at <= hi;
      |LossesIn(log, v, lo, hi)| == |LossesIn(log[..last], v, lo, hi)| + if hit then 1 else 0
  {
    var last := |log| - 1;
    var hit := log[last].Wiped? && v in log[last].live && lo <= log[last].at <= hi;
    assert LossesIn(log, v, lo, hi) == LossesIn(log[..last], v, lo, hi) + if hit then {last} else {};
  }

  lemma GrantsBounded(cfg: Config, s: State, v: Service, lo: Time, length: nat)
    requires cfg.Valid() && s.sets.Keys <= s.mem.checks.Keys && LogOk(cfg, s)
    ensures |GrantsIn(s, v, lo, lo + length)| <= length / cfg.cooldown + 1 + |LossesIn(s.log, v, lo, lo + length)|
  {
    GrantsAreLocks(cfg, s, v, lo, lo + length);
    LocksBounded(s.log, v, cfg.cooldown, lo, length);
    LossesCounted(s.log, v, lo, lo + length);
  }

  lemma DirectsBounded(cfg: Config, s: State, v: Service, lo: Time, length: nat)
    requires cfg.Valid() && DirectOk(cfg, s)
    ensures |SendsIn(s.mem.direct, v, lo, lo + length)| <= (length + cfg.latency) / cfg.cooldown + 1
  {
    SendsBounded(s.mem.direct, v, cfg.cooldown, cfg.latency, lo, length);
    SendsCounted(s.mem.direct, v, lo, lo + length);
  }

  /**
   Bounded duplication. In any interval, the alerts of a service that the Redis cooldown let through are at most one per
   cooldown, plus one, plus one per live key that a data loss destroyed; the direct sends, late ones included, are at
   most one per cooldown, plus one, over the interval stretched by the latency. Their sum bounds all alerts started.
   */
  lemma BoundedDuplication(cfg: Config, states: seq<State>, events: seq<Event>, i: nat, v: Service, lo: Time, length: nat)
    requires Run(cfg, states, events) && i < |states|
    ensures var s := states[i];
      && s.sets.Keys <= s.mem.checks.Keys
      && |GrantsIn(s, v, lo, lo + length)| <= length / cfg.cooldown + 1 + |LossesIn(s.log, v, lo, lo + length)|
      && |SendsIn(s.mem.direct, v, lo, lo + length)| <= (length + cfg.latency) / cfg.cooldown + 1
  {
    RunKeepsInv(cfg, states, events, i);
    GrantsBounded(cfg, states[i], v, lo, length);
    DirectsBounded(cfg, states[i], v, lo, length);
  }

  // ---------------------------------------------------------------- conservation

  lemma SevenSizes(a: set<Id>, b: set<Id>, c: set<Id>, d: set<Id>, e: set<Id>, f: set<Id>, g: set<Id>)
    requires Apart(a, b, c, d, e, f, g)
    ensures |a + b + c + d + e + f + g| == |a| + |b| + |c| + |d| + |e| + |f| + |g|
  {
    DisjointSize(a, b);
    DisjointSize(a + b, c);
    DisjointSize(a + b + c, d);
    DisjointSize(a + b + c + d, e);
    DisjointSize(a + b + c + d + e, f);
    DisjointSize(a + b + c + d + e + f, g);
  }

  /**
   Conservation. Grants are pending, queued, completed, exhausted (recorded or not), lost with Redis, or rejected, and
   nothing else; each rejection was sent directly or skipped; each direct send comes from a degraded check or a rejection
   and is open, stored, recorded as failed, or failed twice; and the tables hold exactly the rows of these accounts.
   */
  lemma Conservation(cfg: Config, states: seq<State>, events: seq<Event>, i: nat)
    requires Run(cfg, states, events) && i < |states|
    ensures var s := states[i]; var m, l := s.mem, s.ledger;
      && |GrantedIds(m)| == |m.pending| + |s.queue| + |l.completed| + |l.exhausted| + |l.unrecorded| + |l.lost| + |m.rejected|
      && |m.direct| == |DegradedIds(m)| + (|m.rejected| - |m.skipped|)
      && |m.direct| == |l.open| + |l.directDone| + |l.directFailed| + |l.doubleFailed|
      && |s.tables.alerts| == |l.completed| + |l.directDone|
      && |s.tables.failures| == |l.exhausted| + |l.directFailed|
  {
    var s := states[i];
    RunKeepsInv(cfg, states, events, i);
    GrantsAddUp(s);
    DirectsAddUp(s);
  }

  lemma GrantsAddUp(s: State)
    requires GrantsOk(s)
    ensures var m, l := s.mem, s.ledger;
      |GrantedIds(m)| == |m.pending| + |s.queue| + |l.completed| + |l.exhausted| + |l.unrecorded| + |l.lost| + |m.rejected|
  {
    SevenSizes(s.mem.pending, s.queue.Keys, s.ledger.completed, s.ledger.exhausted, s.ledger.unrecorded,
               s.ledger.lost.Keys, s.mem.rejected);
    assert |s.queue| == |s.queue.Keys| && |s.ledger.lost| == |s.ledger.lost.Keys|;
  }

  lemma DegradedNotRejected(s: State)
    requires GrantsOk(s)
    ensures DegradedIds(s.mem) !! s.mem.rejected
  {
    forall id | id in s.mem.rejected ensures id !in DegradedIds(s.mem) {
      assert id in GrantedIds(s.mem);
    }
  }

  lemma DirectsAddUp(s: State)
    requires DirectsOk(s) && GrantsOk(s)
    ensures var m, l := s.mem, s.ledger;
      && |m.direct| == |DegradedIds(m)| + (|m.rejected| - |m.skipped|)
      && |m.direct| == |l.open| + |l.directDone| + |l.directFailed| + |l.doubleFailed|
  {
    DegradedNotRejected(s);
    SumOfDirects(s.mem.skipped, s.mem.rejected, DegradedIds(s.mem), DirectIds(s.mem.direct), |s.mem.direct|,
                 s.ledger.open, s.ledger.directDone, s.ledger.directFailed, s.ledger.doubleFailed);
  }

  lemma SumOfDirects(skipped: set<Id>, rejected: set<Id>, degraded: set<Id>, sent: set<Id>, sends: nat,
                     open: set<Id>, done: set<Id>, failed: set<Id>, doubleFailed: set<Id>)
    requires DirectAccount(skipped, rejected, degraded, sent, sends, open, done, failed, doubleFailed) && degraded !! rejected
    ensures sends == |degraded| + (|rejected| - |skipped|) == |open| + |done| + |failed| + |doubleFailed|
  {
    DisjointSize(degraded, rejected - skipped);
    DisjointSize(skipped, rejected - skipped);
    assert skipped + (rejected - skipped) == rejected;
    DisjointSize(open, done);
    DisjointSize(open + done, failed);
    DisjointSize(open + done + failed, doubleFailed);
  }

  ghost function AlertJobs(rows: seq<AlertRow>): set<Id> {
    set i | 0 <= i < |rows| :: rows[i].job
  }

  lemma AppendJob(rows: seq<AlertRow>, r: AlertRow)
    ensures AlertJobs(rows + [r]) == AlertJobs(rows) + {r.job}
  {
    var all := rows + [r];
    assert all[|rows|] == r;
    forall x | x in AlertJobs(rows) ensures x in AlertJobs(all) {
      var i :| 0 <= i < |rows| && rows[i].job == x;
      assert all[i].job == x;
    }
  }

  lemma {:induction false} DistinctJobs(rows: seq<AlertRow>)
    requires forall i, j :: 0 <= i < j < |rows| ==> rows[i].job != rows[j].job
    ensures |AlertJobs(rows)| == |rows|
  {
    if rows != [] {
      var last := |rows| - 1;
      DistinctJobs(rows[..last]);
      AppendJob(rows[..last], rows[last]);
      assert rows == rows[..last] + [rows[last]];
      assert rows[last].job !in AlertJobs(rows[..last]);
    }
  }

  lemma SubsetOfEqualSize<T>(a: set<T>, b: set<T>)
    requires a <= b && |a| == |b|
    ensures a == b
  {
    assert b == a + (b - a);
  }

  /** Every completed alert has its row. */
  lemma RowForEachBooking(cfg: Config, s: State)
    requires cfg.Valid() && TablesOk(cfg, s) && GrantsOk(s) && DirectsOk(s)
    ensures AlertJobs(s.tables.alerts) == s.ledger.completed + s.ledger.directDone
  {
    BookingsApart(s);
    DirectBookings(s);
    DisjointSize(s.ledger.completed, s.ledger.directDone);
    DistinctJobs(s.tables.alerts);
    SubsetOfEqualSize(AlertJobs(s.tables.alerts), s.ledger.completed + s.ledger.directDone);
  }

  lemma RowsApart(cfg: Config, s: State)
    requires cfg.Valid() && TablesOk(cfg, s) && GrantsOk(s) && DirectsOk(s)
    ensures (s.ledger.completed + s.ledger.directDone) !! (s.ledger.exhausted + s.ledger.directFailed)
  {
    BookingsApart(s);
    DirectBookings(s);
    assert s.ledger.completed !! s.ledger.exhausted && s.ledger.directDone !! s.ledger.directFailed;
    assert s.ledger.completed !! DirectIds(s.mem.direct) && s.ledger.exhausted !! DirectIds(s.mem.direct);
    QuarterApart(s.ledger.completed, s.ledger.exhausted, s.ledger.directDone, s.ledger.directFailed, DirectIds(s.mem.direct));
  }

  lemma DirectBookings(s: State)
    requires DirectsOk(s)
    ensures s.ledger.directDone <= DirectIds(s.mem.direct) && s.ledger.directFailed <= DirectIds(s.mem.direct)
  {
  }

  lemma QuarterApart(a: set<Id>, b: set<Id>, c: set<Id>, d: set<Id>, e: set<Id>)
    requires a !! b && c !! d && a !! e && b !! e && c <= e && d <= e
    ensures (a + c) !! (b + d)
  {
  }

  /** At most one `alerts` row and one failure row per check, never both, and a row behind every completed alert. */
  ghost predicate OneRowEach(cfg: Config, s: State) {
    && (forall k, l :: 0 <= k < l < |s.tables.alerts| ==> s.tables.alerts[k].job != s.tables.alerts[l].job)
    && (forall k, l :: 0 <= k < l < |s.tables.failures| ==> s.tables.failures[k].job != s.tables.failures[l].job)
    && (forall k, l :: 0 <= k < |s.tables.alerts| && 0 <= l < |s.tables.failures| ==>
          s.tables.alerts[k].job != s.tables.failures[l].job)
    && AlertJobs(s.tables.alerts) == s.ledger.completed + s.ledger.directDone
    && (forall k :: 0 <= k < |s.tables.failures| ==>
          s.tables.failures[k].attempts == if s.tables.failures[k].job in s.ledger.exhausted then cfg.attempts else 1)
  }

  lemma StateHasOneRowEach(cfg: Config, s: State)
    requires cfg.Valid() && TablesOk(cfg, s)
    requires AlertJobs(s.tables.alerts) == s.ledger.completed + s.ledger.directDone
    requires (s.ledger.completed + s.ledger.directDone) !! (s.ledger.exhausted + s.ledger.directFailed)
    ensures OneRowEach(cfg, s)
  {
  }

  lemma OneRowPerCheck(cfg: Config, states: seq<State>, events: seq<Event>, i: nat)
    requires Run(cfg, states, events) && i < |states|
    ensures OneRowEach(cfg, states[i])
  {
    RunKeepsInv(cfg, states, events, i);
    RowForEachBooking(cfg, states[i]);
    RowsApart(cfg, states[i]);
    StateHasOneRowEach(cfg, states[i]);
  }

  // ---------------------------------------------------------------- one alert per check

  lemma {:induction false} IdsAtMostSends(direct: seq<Direct>)
    ensures |DirectIds(direct)| <= |direct|
  {
    if direct != [] {
      var last := |direct| - 1;
      IdsAtMostSends(direct[..last]);
      AppendDirectId(direct[..last], direct[last]);
      assert direct == direct[..last] + [direct[last]];
    }
  }

  lemma {:induction false} AsManyIdsAsSends(direct: seq<Direct>)
    requires |DirectIds(direct)| == |direct|
    ensures forall i, j :: 0 <= i < j < |direct| ==> direct[i].id != direct[j].id
  {
    if direct != [] {
      var last := |direct| - 1;
      var before := direct[..last];
      IdsAtMostSends(before);
      AppendDirectId(before, direct[last]);
      assert direct == before + [direct[last]];
      AsManyIdsAsSends(before);
      forall i, j | 0 <= i < j < |direct| ensures direct[i].id != direct[j].id {
        assert before[i] == direct[i];
        if j < last {
          assert before[j] == direct[j];
        } else {
          assert direct[i].id in DirectIds(before);
        }
      }
    }
  }

  /**
   No check starts two alerts on its own account: it enqueues at most once, sends directly at most once, and does both only
   when its enqueue was rejected. It awaits Redis at most twice.
   */
  lemma AtMostOneAlertEach(cfg: Config, states: seq<State>, events: seq<Event>, i: nat, id: Id)
    requires Run(cfg, states, events) && i < |states| && id in states[i].mem.checks
    ensures var s := states[i];
      && s.mem.checks[id].redisAwaits <= 2
      && (forall k, l :: 0 <= k < l < |s.mem.direct| ==> s.mem.direct[k].id != s.mem.direct[l].id)
      && (id in GrantedIds(s.mem) && id in DirectIds(s.mem.direct) <==> id in s.mem.rejected - s.mem.skipped)
  {
    RunKeepsInv(cfg, states, events, i);
    AsManyIdsAsSends(states[i].mem.direct);
    assert CheckOk(states[i], id, states[i].mem.checks[id]);
    BothOnlyAfterRejection(states[i], id);
  }

  lemma BothOnlyAfterRejection(s: State, id: Id)
    requires GrantsOk(s) && DirectsOk(s)
    ensures id in GrantedIds(s.mem) && id in DirectIds(s.mem.direct) <==> id in s.mem.rejected - s.mem.skipped
  {
    assert id in s.mem.rejected ==> id in GrantedIds(s.mem);
    assert id in DegradedIds(s.mem) ==> id !in GrantedIds(s.mem);
  }

  // ---------------------------------------------------------------- rows and the webhook

  /** Every `alerts` row was accepted by the webhook, if there is one, under the key of its check. */
  ghost predicate RowsAccepted(cfg: Config, s: State)
    requires cfg.Valid()
  {
    forall i :: 0 <= i < |s.tables.alerts| && cfg.webhook ==>
      var id := s.tables.alerts[i].job;
      id in s.mem.checks && KeyOf(AlertOf(cfg, id, s.mem.checks[id]).data) in s.tables.accepted
  }

  lemma AcceptedKept(cfg: Config, s: State, e: Event)
    requires cfg.Valid() && TablesOk(cfg, s) && GrantsOk(s) && DirectsOk(s) && RowsAccepted(cfg, s) && Enabled(cfg, s, e)
    ensures RowsAccepted(cfg, Apply(cfg, s, e))
  {
    match e
    case JobAttempt(id, o, f) => AttemptKeepsAccepted(cfg, s, id, o, f);
    case DirectSettles(id, o, f) => SettleKeepsAccepted(cfg, s, id, o, f);
    case _ =>
      StepFramed(cfg, s, e);
      CodeKeepsRows(cfg, s, e);
      OldRowsAccepted(cfg, s, Apply(cfg, s, e));
  }

  lemma OldRowsAccepted(cfg: Config, s: State, t: State)
    requires cfg.Valid() && TablesOk(cfg, s) && GrantsOk(s) && DirectsOk(s) && RowsAccepted(cfg, s) && RowsStand(cfg, s, t)
    requires t.tables == s.tables
    ensures RowsAccepted(cfg, t)
  {
    forall i | 0 <= i < |t.tables.alerts| && cfg.webhook
      ensures var id := t.tables.alerts[i].job;
        id in t.mem.checks && KeyOf(AlertOf(cfg, id, t.mem.checks[id]).data) in t.tables.accepted
    {
      BookedHaveEnded(s, s.tables.alerts[i].job);
    }
  }

  lemma DispatchKeepsAccepted(cfg: Config, s: State, t: State, id: Id, o: Outcome)
    requires cfg.Valid() && RowsAccepted(cfg, s) && id in s.mem.checks && t.mem == s.mem
    requires t.tables.alerts == AfterDispatch(cfg.webhook, s.tables, AlertOf(cfg, id, s.mem.checks[id]), o).alerts
    requires t.tables.accepted == AfterDispatch(cfg.webhook, s.tables, AlertOf(cfg, id, s.mem.checks[id]), o).accepted
    ensures RowsAccepted(cfg, t)
  {
  }

  lemma AttemptKeepsAccepted(cfg: Config, s: State, id: Id, o: Outcome, f: bool)
    requires cfg.Valid() && RowsAccepted(cfg, s) && Enabled(cfg, s, JobAttempt(id, o, f))
    ensures RowsAccepted(cfg, Apply(cfg, s, JobAttempt(id, o, f)))
  {
    DispatchKeepsAccepted(cfg, s, AttemptJob(cfg, s, id, o, f), id, o);
  }

  lemma SettleKeepsAccepted(cfg: Config, s: State, id: Id, o: Outcome, f: bool)
    requires cfg.Valid() && RowsAccepted(cfg, s) && Enabled(cfg, s, DirectSettles(id, o, f))
    ensures RowsAccepted(cfg, Apply(cfg, s, DirectSettles(id, o, f)))
  {
    DispatchKeepsAccepted(cfg, s, SettleDirect(cfg, s, id, o, f), id, o);
  }

  lemma {:induction false} RowsWereAccepted(cfg: Config, states: seq<State>, events: seq<Event>, i: nat)
    requires Run(cfg, states, events) && i < |states|
    ensures RowsAccepted(cfg, states[i])
  {
    if i > 0 {
      RowsWereAccepted(cfg, states, events, i - 1);
      RunKeepsInv(cfg, states, events, i - 1);
      AcceptedKept(cfg, states[i - 1], events[i - 1]);
    }
  }
}
