/** Silence and data losses: without a loss the cover of a silent check is still there; with one it may be gone. */
module ProtocolLosses {
  import opened Common
  import opened Protocol
  import opened ProtocolAccounts
  import opened ProtocolInvariants
  import opened ProtocolTheorems

  /** The alert behind a won lock is still on its way or has ended in the history. */
  ghost predicate Alive(s: State, h: Id) {
    || InPhase(s, h, Locking)
    || h in s.mem.pending
    || h in s.queue
    || h in s.ledger.completed || h in s.ledger.exhausted || h in s.ledger.unrecorded
  }

  /** As `Covered`, without the alerts that went down with Redis. */
  ghost predicate StrictlyCovered(cfg: Config, s: State, v: Service, t: Time)
    requires s.sets.Keys <= s.mem.checks.Keys
  {
    || (exists h :: && h in s.sets && s.sets[h].Won? && s.mem.checks[h].service == v
                    && t - cfg.cooldown < s.sets[h].at && Alive(s, h))
    || SentAfter(s.mem.direct, v, t - SilenceReach(cfg))
  }

  ghost predicate LossLogged(s: State, at: Time) {
    exists k :: 0 <= k < |s.log| && s.log[k].Wiped? && s.log[k].at == at
  }

  /** Jobs are lost only in losses of the log. */
  ghost predicate LostInLog(s: State) {
    forall h :: h in s.ledger.lost ==> LossLogged(s, s.ledger.lost[h])
  }

  lemma WipeLogsLoss(s: State)
    requires LostInLog(s)
    ensures LostInLog(Wipe(s))
  {
    var t := Wipe(s);
    assert t.log[|s.log|].Wiped? && t.log[|s.log|].at == s.now;
    forall h | h in t.ledger.lost ensures LossLogged(t, t.ledger.lost[h]) {
      if h !in s.queue {
        LogStays(s, t, s.ledger.lost[h]);
      }
    }
  }

  lemma LogStays(s: State, t: State, at: Time)
    requires LossLogged(s, at) && s.log <= t.log
    ensures LossLogged(t, at)
  {
    var k :| 0 <= k < |s.log| && s.log[k].Wiped? && s.log[k].at == at;
    assert t.log[k] == s.log[k];
  }

  lemma StepKeepsLostInLog(cfg: Config, s: State, e: Event)
    requires cfg.Valid() && Enabled(cfg, s, e) && LostInLog(s)
    ensures LostInLog(Apply(cfg, s, e))
  {
    match e
    case RedisWiped => WipeLogsLoss(s);
    case SetExecutes(id) => SetExecutionLosesNothing(cfg, s, id);
    case _ => OthersLoseNothing(cfg, s, e);
  }

  lemma SetExecutionLosesNothing(cfg: Config, s: State, id: Id)
    requires cfg.Valid() && Enabled(cfg, s, SetExecutes(id)) && LostInLog(s)
    ensures LostInLog(Apply(cfg, s, SetExecutes(id)))
  {
    SetExecutionLeavesMemory(cfg, s, id);
    LongerLogKeepsLost(s, Apply(cfg, s, SetExecutes(id)));
  }

  lemma OthersLoseNothing(cfg: Config, s: State, e: Event)
    requires cfg.Valid() && Enabled(cfg, s, e) && LostInLog(s) && !e.RedisWiped? && !e.SetExecutes?
    ensures LostInLog(Apply(cfg, s, e))
  {
    StepFramed(cfg, s, e);
    LongerLogKeepsLost(s, Apply(cfg, s, e));
  }

  lemma LongerLogKeepsLost(s: State, t: State)
    requires LostInLog(s) && s.log <= t.log && t.ledger.lost == s.ledger.lost
    ensures LostInLog(t)
  {
    forall h | h in t.ledger.lost ensures LossLogged(t, t.ledger.lost[h]) {
      LogStays(s, t, s.ledger.lost[h]);
    }
  }

  lemma {:induction false} RunKeepsLostInLog(cfg: Config, states: seq<State>, events: seq<Event>, i: nat)
    requires Run(cfg, states, events) && i < |states|
    ensures LostInLog(states[i])
  {
    if i > 0 {
      RunKeepsLostInLog(cfg, states, events, i - 1);
      StepKeepsLostInLog(cfg, states[i - 1], events[i - 1]);
    }
  }

  /** Whatever a loss of the log took was live: its lock had been set less than a cooldown before. */
  ghost predicate LossesTakeLive(cfg: Config, log: seq<LockEvent>) {
    forall k, v :: 0 <= k < |log| && log[k].Wiped? && v in log[k].live ==> HeldAt(cfg, log, k, v)
  }

  ghost predicate HeldAt(cfg: Config, log: seq<LockEvent>, k: int, v: Service) {
    0 <= k < |log| && exists a :: 0 <= a < k && log[a].Acquired? && log[a].service == v && log[k].at < log[a].at + cfg.cooldown
  }

  lemma LongerLogTakesLive(cfg: Config, log: seq<LockEvent>, e: LockEvent)
    requires LossesTakeLive(cfg, log)
    requires e.Wiped? ==> forall v :: v in e.live ==> HeldAt(cfg, log + [e], |log|, v)
    ensures LossesTakeLive(cfg, log + [e])
  {
    var all := log + [e];
    forall k, v | 0 <= k < |all| && all[k].Wiped? && v in all[k].live ensures HeldAt(cfg, all, k, v) {
      if k < |log| {
        assert HeldAt(cfg, log, k, v);
        var a :| 0 <= a < k && log[a].Acquired? && log[a].service == v && log[k].at < log[a].at + cfg.cooldown;
        assert all[a] == log[a] && all[k] == log[k];
      }
    }
  }

  lemma WipeTakesLive(cfg: Config, s: State)
    requires s.sets.Keys <= s.mem.checks.Keys && KeysOk(cfg, s) && LogOk(cfg, s) && LossesTakeLive(cfg, s.log)
    ensures LossesTakeLive(cfg, Wipe(s).log)
  {
    var e := Wiped(s.now, set v | v in s.keys && KeyLive(s, v));
    forall v | v in e.live ensures HeldAt(cfg, s.log + [e], |s.log|, v) {
      var k := s.keys[v];
      assert Acquired(v, k.setAt, k.owner) in s.log;
      var a :| 0 <= a < |s.log| && s.log[a] == Acquired(v, k.setAt, k.owner);
      assert (s.log + [e])[a] == s.log[a];
    }
    LongerLogTakesLive(cfg, s.log, e);
  }

  lemma StepTakesLive(cfg: Config, s: State, e: Event)
    requires cfg.Valid() && ChecksOk(s) && KeysOk(cfg, s) && LogOk(cfg, s) && LossesTakeLive(cfg, s.log) && Enabled(cfg, s, e)
    ensures LossesTakeLive(cfg, Apply(cfg, s, e).log)
  {
    match e
    case RedisWiped => WipeTakesLive(cfg, s);
    case SetExecutes(id) =>
      if !KeyLive(s, s.mem.checks[id].service) {
        LongerLogTakesLive(cfg, s.log, Acquired(s.mem.checks[id].service, s.now, id));
      }
    case _ => StepFramed(cfg, s, e);
  }

  lemma {:induction false} RunTakesLive(cfg: Config, states: seq<State>, events: seq<Event>, i: nat)
    requires Run(cfg, states, events) && i < |states|
    ensures LossesTakeLive(cfg, states[i].log)
  {
    if i > 0 {
      RunTakesLive(cfg, states, events, i - 1);
      RunKeepsInv(cfg, states, events, i - 1);
      StepTakesLive(cfg, states[i - 1], events[i - 1]);
    }
  }

  lemma CoverSurvives(cfg: Config, s: State, v: Service, t: Time)
    requires s.sets.Keys <= s.mem.checks.Keys && LostInLog(s) && Covered(cfg, s, v, t)
    requires forall k :: 0 <= k < |s.log| && s.log[k].Wiped? ==> s.log[k].at < t
    ensures StrictlyCovered(cfg, s, v, t)
  {
    if !SentAfter(s.mem.direct, v, t - SilenceReach(cfg)) {
      var h :| && h in s.sets && s.sets[h].Won? && s.mem.checks[h].service == v
               && t - cfg.cooldown < s.sets[h].at && UnderWay(s, h, t);
      if h in s.ledger.lost {
        assert LossLogged(s, s.ledger.lost[h]);
      }
      assert Alive(s, h);
    }
  }

  /**
   Bounded silence without a loss. In every run, a check that stayed silent and whose clock reading is later than every loss
   of the Redis data is covered by an alert that is still there, or by a direct send.
   */
  lemma SilenceWithoutLoss(cfg: Config, states: seq<State>, events: seq<Event>, i: nat, id: Id)
    requires Run(cfg, states, events) && i < |states| && Silent(states[i], id) && id in states[i].mem.checks
    requires forall k :: 0 <= k < |states[i].log| && states[i].log[k].Wiped? ==>
                           states[i].log[k].at < states[i].mem.checks[id].readAt
    ensures var s := states[i];
      s.sets.Keys <= s.mem.checks.Keys && StrictlyCovered(cfg, s, s.mem.checks[id].service, s.mem.checks[id].readAt)
  {
    BoundedSilence(cfg, states, events, i, id);
    RunKeepsLostInLog(cfg, states, events, i);
    CoverSurvives(cfg, states[i], states[i].mem.checks[id].service, states[i].mem.checks[id].readAt);
  }

  // ---------------------------------------------------------------- a loss takes the cover away

  /** Check 0 has taken the lock and its alert is in the queue; nothing else has happened. */
  ghost predicate OneQueued(cfg: Config, s: State) {
    && s.now == 0 && s.healthy
    && s.mem.checks.Keys == {0} && s.mem.checks[0].service == "svc" && s.mem.checks[0].phase == Ended(Granted)
    && s.sets == map[0 := Won(0)] && s.keys == map["svc" := CooldownKey(0, 0, cfg.cooldown)]
    && s.mem.pending == {} && s.mem.direct == [] && s.queue == map[0 := 0] && s.ledger == Start(0).ledger
  }

  /** Check 0 has sent its SET. */
  lemma AskOne(cfg: Config) returns (ss: seq<State>, es: seq<Event>)
    requires cfg.Valid()
    ensures Run(cfg, ss, es)
    ensures var s := ss[|ss| - 1];
      && s == Start(0).(mem := s.mem, sets := map[0 := Sent])
      && s.mem == Start(0).mem.(checks := s.mem.checks) && s.mem.checks.Keys == {0}
      && s.mem.checks[0].service == "svc" && s.mem.checks[0].readAt == 0 && s.mem.checks[0].phase == Locking
  {
    ss, es := Extend(cfg, [Start(0)], [], Begin(0, "svc"));
    ss, es := Extend(cfg, ss, es, CountReply(0, cfg.threshold + 1));
  }

  lemma QueueOne(cfg: Config) returns (ss: seq<State>, es: seq<Event>)
    requires cfg.Valid()
    ensures Run(cfg, ss, es) && OneQueued(cfg, ss[|ss| - 1])
  {
    ss, es := AskOne(cfg);
    ss, es := Extend(cfg, ss, es, SetExecutes(0));
    ss, es := Extend(cfg, ss, es, SetReply(0));
    ss, es := Extend(cfg, ss, es, EnqueueAccepted(0));
  }

  /** Check 1 is refused for the sake of check 0, whose alert is still in the queue. */
  ghost predicate OneSilent(s: State) {
    && s.mem.checks.Keys == {0, 1} && s.mem.checks[0].phase == Ended(Granted)
    && s.mem.checks[1].phase == Ended(HeldByRedis) && s.mem.checks[1].service == "svc"
    && s.sets == map[0 := Won(0), 1 := Refused(0, 0)]
    && s.mem.pending == {} && s.mem.direct == [] && s.queue == map[0 := 0] && s.ledger == Start(0).ledger
  }

  /** Check 1 has sent its SET. */
  lemma AskAgain(cfg: Config) returns (ss: seq<State>, es: seq<Event>)
    requires cfg.Valid()
    ensures Run(cfg, ss, es)
    ensures var s := ss[|ss| - 1];
      && s.now == 0 && s.keys == map["svc" := CooldownKey(0, 0, cfg.cooldown)] && s.sets == map[0 := Won(0), 1 := Sent]
      && s.mem.checks.Keys == {0, 1} && s.mem.checks[0].phase == Ended(Granted) && s.mem.checks[1].phase == Locking
      && s.mem.checks[1].service == "svc" && s.mem.checks[1].readAt == 0
      && s.mem.pending == {} && s.mem.direct == [] && s.queue == map[0 := 0] && s.ledger == Start(0).ledger
  {
    ss, es := QueueOne(cfg);
    ss, es := Extend(cfg, ss, es, Begin(1, "svc"));
    ss, es := Extend(cfg, ss, es, CountReply(1, cfg.threshold + 1));
  }

  lemma SilenceOne(cfg: Config) returns (ss: seq<State>, es: seq<Event>)
    requires cfg.Valid()
    ensures Run(cfg, ss, es) && OneSilent(ss[|ss| - 1])
  {
    ss, es := AskAgain(cfg);
    ss, es := Extend(cfg, ss, es, SetExecutes(1));
    ss, es := Extend(cfg, ss, es, SetReply(1));
  }

  /** Whatever the settings, a loss right after the silent check leaves it without any alert. */
  lemma LossTakesCover(cfg: Config) returns (ss: seq<State>, es: seq<Event>)
    requires cfg.Valid()
    ensures Run(cfg, ss, es)
    ensures var s := ss[|ss| - 1];
      && s.sets.Keys <= s.mem.checks.Keys && Silent(s, 1) && 1 in s.mem.checks
      && !StrictlyCovered(cfg, s, s.mem.checks[1].service, s.mem.checks[1].readAt)
  {
    ss, es := SilenceOne(cfg);
    var before := ss[|ss| - 1];
    ss, es := Extend(cfg, ss, es, RedisWiped);
    var s := ss[|ss| - 1];
    assert s == Wipe(before);
    forall h | h in s.sets && s.sets[h].Won? ensures !Alive(s, h) {
      assert h == 0;
    }
  }
}
