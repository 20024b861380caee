/** From the counters to the alert: a burst of errors is answered, whichever counter saw it. */
module Bursts {
  import opened Protocol
  import opened CounterRuns
  import opened ProtocolTheorems

  /** The count of `c` is the Redis count at the end of the run, and Redis has kept a burst over the threshold. */
  ghost predicate RedisSawBurst(cfg: Config, ops: seq<Op>, c: Check, burst: set<nat>, start: int) {
    && ServerOrder(ops, c.service) && EndsInRecord(ops, c.service, cfg.window) && AheadAtMost(ops, c.service, 0)
    && ops[|ops| - 1].at == c.readAt && c.count == CountReturned(cfg.window, ops)
    && |burst| == cfg.threshold + 1 && |ops| - 1 in burst
    && BurstWithin(ops, c.service, burst, start, cfg.window) && forall i :: i in burst ==> IsKept(ops, i)
  }

  /** The count of `c` is that of the database at the end of the run, and a burst of rows is stored within the window. */
  ghost predicate DbSawBurst(cfg: Config, ops: seq<Op>, c: Check, burst: set<nat>) {
    && c.count == DbCount(ops, c.service, cfg.window, c.readAt)
    && burst <= SavedInWindow(ops, c.service, cfg.window, c.readAt) && |burst| == cfg.threshold + 1
  }

  lemma BurstGoesOver(cfg: Config, ops: seq<Op>, c: Check, burst: set<nat>, start: int)
    requires cfg.Valid() && (RedisSawBurst(cfg, ops, c, burst, start) || DbSawBurst(cfg, ops, c, burst))
    ensures c.count > cfg.threshold
  {
    if DbSawBurst(cfg, ops, c, burst) {
      NoMissedBurstInDb(cfg.window, ops, c.service, c.readAt, cfg.threshold, burst);
    } else {
      NoMissedBurst(cfg.window, ops, c.service, cfg.threshold, burst, start);
    }
  }

  /**
   The promise of the whole pipeline. In every state of every run of the protocol, a check that ended, and whose count came
   from a run of the counters with a burst over the threshold, has an alert of its own or is covered by another one.
   */
  lemma BurstIsAnswered(cfg: Config, states: seq<State>, events: seq<Event>, n: nat, id: Id, ops: seq<Op>, burst: set<nat>, start: int)
    requires Run(cfg, states, events) && n < |states|
    requires id in states[n].mem.checks && states[n].mem.checks[id].phase.Ended?
    requires states[n].mem.checks[id].phase.verdict != DbFailed
    requires var c := states[n].mem.checks[id];
      RedisSawBurst(cfg, ops, c, burst, start) || DbSawBurst(cfg, ops, c, burst)
    ensures var s := states[n]; var c := s.mem.checks[id];
      && s.sets.Keys <= s.mem.checks.Keys
      && (OwnAlert(s, id) || Covered(cfg, s, c.service, c.readAt))
  {
    BurstGoesOver(cfg, ops, states[n].mem.checks[id], burst, start);
    OverThresholdIsAnswered(cfg, states, events, n, id);
  }
}
