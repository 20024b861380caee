/** The jobs of a run, counted in its events: how often each is attempted, and where its attempts lead. */
module ProtocolJobs {
  import opened Alerts
  import opened Protocol
  import opened ProtocolInvariants
  import opened ProtocolAccounts

  /** How many of the events are delivery attempts of the job of check `id`. */
  function Attempts(events: seq<Event>, id: Id): nat {
    if events == [] then 0
    else
      var last := events[|events| - 1];
      Attempts(events[..|events| - 1], id) + if last.JobAttempt? && last.id == id then 1 else 0
  }

  /** One attempt, in terms of what the world answered: done, once more, or given up with or without a failure row. */
  lemma AttemptLeads(cfg: Config, s: State, id: Id, o: Outcome, failureInsertOk: bool)
    requires cfg.Valid() && Enabled(cfg, s, JobAttempt(id, o, failureInsertOk))
    ensures var t := Apply(cfg, s, JobAttempt(id, o, failureInsertOk)); var made := s.queue[id];
      if o.insertOk && (cfg.webhook ==> o.webhookAccepts) then
        t.queue == s.queue - {id} && t.ledger == s.ledger.(completed := s.ledger.completed + {id})
      else if made + 1 < cfg.attempts then
        t.queue == s.queue[id := made + 1] && t.ledger == s.ledger
      else if failureInsertOk then
        t.queue == s.queue - {id} && t.ledger == s.ledger.(exhausted := s.ledger.exhausted + {id})
      else
        t.queue == s.queue - {id} && t.ledger == s.ledger.(unrecorded := s.ledger.unrecorded + {id})
  {
  }

  /** The end of a direct send, in the same terms. */
  lemma SettlementLeads(cfg: Config, s: State, id: Id, o: Outcome, failureInsertOk: bool)
    requires cfg.Valid() && Enabled(cfg, s, DirectSettles(id, o, failureInsertOk))
    ensures var t := Apply(cfg, s, DirectSettles(id, o, failureInsertOk)); var l := s.ledger.(open := s.ledger.open - {id});
      t.ledger == if o.insertOk && (cfg.webhook ==> o.webhookAccepts) then l.(directDone := l.directDone + {id})
                  else if failureInsertOk then l.(directFailed := l.directFailed + {id})
                  else l.(doubleFailed := l.doubleFailed + {id})
  {
  }

  /** Where a job with `n` attempts can be: waiting with that number on its counter, done, given up after all of them, or lost. */
  ghost predicate AttemptsFit(cfg: Config, s: State, id: Id, n: nat) {
    && (id in s.queue ==> s.queue[id] == n && n < cfg.attempts)
    && (id in s.ledger.completed ==> 1 <= n <= cfg.attempts)
    && (id in s.ledger.exhausted || id in s.ledger.unrecorded ==> n == cfg.attempts)
    && (id in s.ledger.lost ==> n < cfg.attempts)
    && (n > 0 ==> id in s.queue || id in s.ledger.completed || id in s.ledger.exhausted || id in s.ledger.unrecorded
                  || id in s.ledger.lost)
  }

  lemma AttemptFits(cfg: Config, s: State, e: Event, id: Id, n: nat)
    requires cfg.Valid() && GrantsOk(s) && Enabled(cfg, s, e) && AttemptsFit(cfg, s, id, n) && e.JobAttempt?
    ensures AttemptsFit(cfg, Apply(cfg, s, e), id, n + if e.id == id then 1 else 0)
  {
    AttemptLeads(cfg, s, e.id, e.outcome, e.failureInsertOk);
  }

  /** A job that is just accepted has not been attempted. */
  lemma AcceptanceFits(cfg: Config, s: State, e: Event, id: Id, n: nat)
    requires cfg.Valid() && GrantsOk(s) && Enabled(cfg, s, e) && AttemptsFit(cfg, s, id, n) && e.EnqueueAccepted?
    ensures AttemptsFit(cfg, Apply(cfg, s, e), id, n)
  {
    var t := Apply(cfg, s, e);
    assert t.queue == s.queue[e.id := 0] && t.ledger == s.ledger;
    assert e.id !in s.queue.Keys && e.id !in s.ledger.lost.Keys;
  }

  lemma WipeFits(cfg: Config, s: State, id: Id, n: nat)
    requires cfg.Valid() && GrantsOk(s) && AttemptsFit(cfg, s, id, n)
    ensures AttemptsFit(cfg, Wipe(s), id, n)
  {
  }

  lemma OtherFits(cfg: Config, s: State, e: Event, id: Id, n: nat)
    requires cfg.Valid() && Enabled(cfg, s, e) && AttemptsFit(cfg, s, id, n)
    requires !e.JobAttempt? && !e.EnqueueAccepted? && !e.RedisWiped?
    ensures AttemptsFit(cfg, Apply(cfg, s, e), id, n)
  {
    StepFramed(cfg, s, e);
  }

  lemma StepFits(cfg: Config, s: State, e: Event, id: Id, n: nat)
    requires cfg.Valid() && GrantsOk(s) && Enabled(cfg, s, e) && AttemptsFit(cfg, s, id, n)
    ensures AttemptsFit(cfg, Apply(cfg, s, e), id, n + if e.JobAttempt? && e.id == id then 1 else 0)
  {
    match e
    case JobAttempt(_, _, _) => AttemptFits(cfg, s, e, id, n);
    case EnqueueAccepted(_) => AcceptanceFits(cfg, s, e, id, n);
    case RedisWiped => WipeFits(cfg, s, id, n);
    case _ => OtherFits(cfg, s, e, id, n);
  }

  /**
   Retries over runs. In every run the counter of a waiting job is the number of its attempts so far, below the limit; a
   completed job had at least one attempt and no more than the limit, and a job is given up only after exactly the limit.
   No job is attempted otherwise, so none is attempted more often than the limit.
   */
  lemma {:induction false} AttemptsAreCounted(cfg: Config, states: seq<State>, events: seq<Event>, i: nat, id: Id)
    requires Run(cfg, states, events) && i < |states|
    ensures AttemptsFit(cfg, states[i], id, Attempts(events[..i], id))
    ensures Attempts(events[..i], id) <= cfg.attempts
  {
    if i > 0 {
      AttemptsAreCounted(cfg, states, events, i - 1, id);
      GrantsInRun(cfg, states, events, i - 1);
      StepFits(cfg, states[i - 1], events[i - 1], id, Attempts(events[..i - 1], id));
      NextAttempts(events, i, id);
    }
    FitIsBounded(cfg, states[i], id, Attempts(events[..i], id));
  }

  lemma FitIsBounded(cfg: Config, s: State, id: Id, n: nat)
    requires AttemptsFit(cfg, s, id, n)
    ensures n <= cfg.attempts
  {
  }

  lemma NextAttempts(events: seq<Event>, i: nat, id: Id)
    requires 0 < i <= |events|
    ensures var e := events[i - 1];
      Attempts(events[..i], id) == Attempts(events[..i - 1], id) + if e.JobAttempt? && e.id == id then 1 else 0
  {
    assert events[..i][..i - 1] == events[..i - 1];
  }

  lemma GrantsInRun(cfg: Config, states: seq<State>, events: seq<Event>, i: nat)
    requires Run(cfg, states, events) && i < |states|
    ensures GrantsOk(states[i])
  {
    RunKeepsInv(cfg, states, events, i);
  }
}
