/** How long a silence can last: the reach of `BoundedSilence` cannot be shortened by a millisecond, for any settings. */
module ProtocolReach {
  import opened Common
  import opened Protocol
  import opened ProtocolInvariants
  import opened ProtocolTheorems

  /** No alert is on its way and none has come through the queue. */
  ghost predicate NothingQueued(s: State) {
    && s.mem.pending == {} && s.queue == map[] && s.ledger.lost == map[]
    && s.ledger.completed == {} && s.ledger.exhausted == {} && s.ledger.unrecorded == {}
  }

  /** The one direct send of the run below, at time 0. */
  ghost predicate SentOnce(s: State) {
    s.mem.direct == [Direct(0, "svc", 0, 0)] && NothingQueued(s)
  }

  /** Check 0 has sent directly while Redis was down; Redis is back, just before the memory cooldown runs out. */
  ghost predicate AfterSend(cfg: Config, s: State) {
    && s.now == cfg.cooldown - 1 && s.healthy && SentOnce(s)
    && s.mem.checks.Keys == {0} && s.mem.local == map["svc" := cfg.cooldown] && s.sets == map[] && s.keys == map[]
  }

  lemma Send(cfg: Config) returns (ss: seq<State>, es: seq<Event>)
    requires cfg.Valid()
    ensures Run(cfg, ss, es) && AfterSend(cfg, ss[|ss| - 1])
  {
    ss, es := Extend(cfg, [Start(0)], [], Health(false));
    ss, es := Extend(cfg, ss, es, Begin(0, "svc"));
    ss, es := Extend(cfg, ss, es, CountReply(0, cfg.threshold + 1));
    assert SentOnce(ss[|ss| - 1]) && ss[|ss| - 1].mem.local == map["svc" := cfg.cooldown];
    ss, es := Extend(cfg, ss, es, Health(true));
    ss, es := Extend(cfg, ss, es, Tick(cfg.cooldown - 1));
  }

  /** Check 1 has its SET executed at the end of its latency, does not hear of it, and is held by the memory cooldown. */
  ghost predicate AfterDeafWin(cfg: Config, s: State) {
    && s.now == cfg.cooldown - 1 + cfg.latency && s.healthy && SentOnce(s)
    && s.mem.checks.Keys == {0, 1} && s.mem.checks[1].phase == Ended(HeldByMemory)
    && s.sets == map[1 := Won(s.now)] && s.keys == map["svc" := CooldownKey(1, s.now, s.now + cfg.cooldown)]
  }

  lemma DeafWin(cfg: Config) returns (ss: seq<State>, es: seq<Event>)
    requires cfg.Valid()
    ensures Run(cfg, ss, es) && AfterDeafWin(cfg, ss[|ss| - 1])
  {
    ss, es := Ask(cfg);
    ss, es := Extend(cfg, ss, es, SetExecutes(1));
    ss, es := Extend(cfg, ss, es, SetFailure(1));
  }

  /** Check 1 has sent its SET and waited for the whole latency. */
  lemma Ask(cfg: Config) returns (ss: seq<State>, es: seq<Event>)
    requires cfg.Valid()
    ensures Run(cfg, ss, es)
    ensures var s := ss[|ss| - 1];
      && s.now == cfg.cooldown - 1 + cfg.latency && s.healthy && SentOnce(s)
      && s.mem.checks.Keys == {0, 1} && s.mem.checks[1].phase == Locking
      && s.mem.checks[1].service == "svc" && s.mem.checks[1].readAt == cfg.cooldown - 1
      && s.mem.local == map["svc" := cfg.cooldown] && s.sets == map[1 := Sent] && s.keys == map[]
  {
    ss, es := Send(cfg);
    ss, es := Extend(cfg, ss, es, Begin(1, "svc"));
    ss, es := Extend(cfg, ss, es, CountReply(1, cfg.threshold + 1));
    ss, es := Extend(cfg, ss, es, Tick(cfg.latency));
  }

  /** Check 2 has sent its SET in the last millisecond of that lock. */
  lemma AskAgain(cfg: Config) returns (ss: seq<State>, es: seq<Event>)
    requires cfg.Valid()
    ensures Run(cfg, ss, es)
    ensures var s := ss[|ss| - 1];
      && SentOnce(s) && s.mem.checks.Keys == {0, 1, 2} && s.sets.Keys == {1, 2} && s.sets[2] == Sent
      && s.now == 2 * cfg.cooldown + cfg.latency - 2 && KeyLive(s, "svc")
      && s.mem.checks[1].phase == Ended(HeldByMemory)
      && s.mem.checks[2].phase == Locking && s.mem.checks[2].service == "svc" && s.mem.checks[2].readAt == s.now
  {
    ss, es := DeafWin(cfg);
    ss, es := Extend(cfg, ss, es, Tick(cfg.cooldown - 1));
    ss, es := Extend(cfg, ss, es, Begin(2, "svc"));
    ss, es := Extend(cfg, ss, es, CountReply(2, cfg.threshold + 1));
  }

  /** It is refused. */
  lemma Refuse(cfg: Config) returns (ss: seq<State>, es: seq<Event>)
    requires cfg.Valid()
    ensures Run(cfg, ss, es)
    ensures var s := ss[|ss| - 1];
      && SentOnce(s) && s.mem.checks.Keys == {0, 1, 2} && s.sets.Keys == {1, 2}
      && s.mem.checks[1].phase == Ended(HeldByMemory) && s.sets[2].Refused?
      && s.mem.checks[2].phase == Ended(HeldByRedis) && s.mem.checks[2].service == "svc"
      && s.mem.checks[2].readAt == 2 * cfg.cooldown + cfg.latency - 2
  {
    ss, es := AskAgain(cfg);
    ss, es := Extend(cfg, ss, es, SetExecutes(2));
    ss, es := Extend(cfg, ss, es, SetReply(2));
  }

  ghost predicate SilenceCovered(cfg: Config, s: State, id: Id, reach: int) {
    && id in s.mem.checks && s.sets.Keys <= s.mem.checks.Keys
    && CoveredWithin(cfg, s, s.mem.checks[id].service, s.mem.checks[id].readAt, reach)
  }

  lemma LongSilence(cfg: Config, reach: int) returns (ss: seq<State>, es: seq<Event>)
    requires cfg.Valid() && reach < SilenceReach(cfg)
    ensures Run(cfg, ss, es) && Silent(ss[|ss| - 1], 2) && !SilenceCovered(cfg, ss[|ss| - 1], 2, reach)
  {
    ss, es := Refuse(cfg);
    var s := ss[|ss| - 1];
    forall h | h in s.sets && s.sets[h].Won? ensures !UnderWay(s, h, s.mem.checks[2].readAt) {
      assert h == 1;
    }
  }

  /** The bound is exact: every silent check of every run is covered within `reach` if and only if `reach` is the one proved. */
  lemma SilenceReachExactly(cfg: Config, reach: int)
    requires cfg.Valid()
    ensures (forall states: seq<State>, events: seq<Event>, i: nat, id: Id ::
               Run(cfg, states, events) && i < |states| && Silent(states[i], id) ==> SilenceCovered(cfg, states[i], id, reach))
            <==> reach >= SilenceReach(cfg)
  {
    if reach >= SilenceReach(cfg) {
      forall states: seq<State>, events: seq<Event>, i: nat, id: Id
        | Run(cfg, states, events) && i < |states| && Silent(states[i], id)
        ensures SilenceCovered(cfg, states[i], id, reach)
      {
        BoundedSilence(cfg, states, events, i, id);
        WiderReach(cfg, states[i], states[i].mem.checks[id].service, states[i].mem.checks[id].readAt, SilenceReach(cfg), reach);
      }
    } else {
      var ss, es := LongSilence(cfg, reach);
      assert Run(cfg, ss, es) && Silent(ss[|ss| - 1], 2);
    }
  }

  lemma WiderReach(cfg: Config, s: State, v: Service, t: Time, reach: int, wider: int)
    requires s.sets.Keys <= s.mem.checks.Keys && CoveredWithin(cfg, s, v, t, reach) && reach <= wider
    ensures CoveredWithin(cfg, s, v, t, wider)
  {
    if SentAfter(s.mem.direct, v, t - reach) {
      SentAfterWeaker(s.mem.direct, v, t - reach, t - wider);
    }
  }
}
