/** What the rows of a run say, told from its events and settings alone. */
module ProtocolRows {
  import opened Common
  import opened Alerts
  import opened Protocol
  import opened ProtocolInvariants
  import opened ProtocolAccounts
  import opened ProtocolTheorems
  import opened ProtocolTiming

  /** A check carries the service it was started for, and past its counting the number its count reply brought. */
  ghost predicate FromEvents(events: seq<Event>, id: Id, c: Check) {
    && Begin(id, c.service) in events
    && (c.phase == Locking || (c.phase.Ended? && c.phase.verdict != DbFailed) ==> CountReply(id, c.count) in events)
  }

  ghost predicate AllFromEvents(s: State, events: seq<Event>) {
    forall id :: id in s.mem.checks ==> FromEvents(events, id, s.mem.checks[id])
  }

  lemma OneCheckFromEvents(s: State, t: State, events: seq<Event>, e: Event, id: Id, c: Check)
    requires AllFromEvents(s, events) && t.mem.checks == s.mem.checks[id := c] && FromEvents(events + [e], id, c)
    ensures AllFromEvents(t, events + [e])
  {
    forall x | x in t.mem.checks ensures FromEvents(events + [e], x, t.mem.checks[x]) {
      assert x != id ==> FromEvents(events, x, s.mem.checks[x]);
    }
  }

  lemma CountReplyFromEvents(cfg: Config, s: State, events: seq<Event>, id: Id, n: nat)
    requires cfg.Valid() && AllFromEvents(s, events) && Enabled(cfg, s, CountReply(id, n))
    ensures AllFromEvents(Apply(cfg, s, CountReply(id, n)), events + [CountReply(id, n)])
  {
    var e := CountReply(id, n);
    var c := CountReplyShape(cfg, s, id, n);
    assert FromEvents(events, id, s.mem.checks[id]);
    assert (events + [e])[|events|] == e;
    OneCheckFromEvents(s, Apply(cfg, s, e), events, e, id, c);
  }

  lemma SetAnswerFromEvents(cfg: Config, s: State, events: seq<Event>, e: Event, id: Id)
    requires cfg.Valid() && AllFromEvents(s, events) && Enabled(cfg, s, e) && (e == SetReply(id) || e == SetFailure(id))
    ensures AllFromEvents(Apply(cfg, s, e), events + [e])
  {
    assert FromEvents(events, id, s.mem.checks[id]);
    var c: Check;
    if e.SetReply? {
      c := SetReplyShape(cfg, s, id);
    } else {
      c := SetFailureShape(cfg, s, id);
    }
    OneCheckFromEvents(s, Apply(cfg, s, e), events, e, id, c);
  }

  lemma StartOrFallbackFromEvents(cfg: Config, s: State, events: seq<Event>, e: Event, id: Id)
    requires cfg.Valid() && AllFromEvents(s, events) && Enabled(cfg, s, e)
    requires e == CountFailure(id) || (e.Begin? && e.id == id)
    ensures AllFromEvents(Apply(cfg, s, e), events + [e])
  {
    var t := Apply(cfg, s, e);
    assert (events + [e])[|events|] == e;
    assert e.CountFailure? ==> FromEvents(events, id, s.mem.checks[id]);
    OneCheckFromEvents(s, t, events, e, id, t.mem.checks[id]);
  }

  lemma SameChecksFromEvents(s: State, t: State, events: seq<Event>, e: Event)
    requires AllFromEvents(s, events) && t.mem.checks == s.mem.checks
    ensures AllFromEvents(t, events + [e])
  {
    forall id | id in t.mem.checks ensures FromEvents(events + [e], id, t.mem.checks[id]) {
      assert FromEvents(events, id, s.mem.checks[id]);
    }
  }

  lemma OtherFromEvents(cfg: Config, s: State, events: seq<Event>, e: Event)
    requires cfg.Valid() && AllFromEvents(s, events) && Enabled(cfg, s, e) && (Aside(e) || e.SetExecutes?)
    ensures AllFromEvents(Apply(cfg, s, e), events + [e])
  {
    if e.SetExecutes? {
      SetExecutionLeavesMemory(cfg, s, e.id);
    } else {
      AsideLeavesChecks(cfg, s, e);
    }
    SameChecksFromEvents(s, Apply(cfg, s, e), events, e);
  }

  lemma StepFromEvents(cfg: Config, s: State, events: seq<Event>, e: Event)
    requires cfg.Valid() && AllFromEvents(s, events) && Enabled(cfg, s, e)
    ensures AllFromEvents(Apply(cfg, s, e), events + [e])
  {
    match e
    case Begin(id, _) => StartOrFallbackFromEvents(cfg, s, events, e, id);
    case CountReply(id, n) => CountReplyFromEvents(cfg, s, events, id, n);
    case CountFailure(id) => StartOrFallbackFromEvents(cfg, s, events, e, id);
    case SetReply(id) => SetAnswerFromEvents(cfg, s, events, e, id);
    case SetFailure(id) => SetAnswerFromEvents(cfg, s, events, e, id);
    case _ => OtherFromEvents(cfg, s, events, e);
  }

  /** In every run a check is of the service it was started for and has the count that was replied to it. */
  lemma {:induction false} ChecksTellEvents(cfg: Config, states: seq<State>, events: seq<Event>, i: nat)
    requires Run(cfg, states, events) && i < |states|
    ensures AllFromEvents(states[i], events[..i])
  {
    if i > 0 {
      ChecksTellEvents(cfg, states, events, i - 1);
      StepFromEvents(cfg, states[i - 1], events[..i - 1], events[i - 1]);
      assert events[..i] == events[..i - 1] + [events[i - 1]];
    }
  }

  // ---------------------------------------------------------------- the rows

  /** The row of an alert: the service and the count of its check, over the threshold of the settings. */
  ghost predicate AlertRowTells(cfg: Config, events: seq<Event>, r: AlertRow) {
    && Begin(r.job, r.service) in events && CountReply(r.job, r.count) in events
    && r.threshold == cfg.threshold && r.windowMs == cfg.window && r.count > cfg.threshold
  }

  /** The row of a failed alert: the same in its payload, with the window its check fell into. */
  ghost predicate FailureRowTells(cfg: Config, s: State, events: seq<Event>, r: FailureRow)
    requires cfg.Valid()
  {
    && Begin(r.job, r.service) in events && CountReply(r.job, r.payload.count) in events
    && r.payload.service == r.service && r.payload.threshold == cfg.threshold && r.payload.windowMs == cfg.window
    && r.payload.count > cfg.threshold
    && r.job in s.mem.checks && WindowHolds(cfg, r.payload.windowStart, s.mem.checks[r.job].readAt)
  }

  /** `start` is the multiple of the window that `t` falls behind by less than a window. */
  predicate WindowHolds(cfg: Config, start: int, t: Time)
    requires cfg.Valid()
  {
    start % cfg.window == 0 && start <= t < start + cfg.window
  }

  ghost predicate RowsTell(cfg: Config, s: State, events: seq<Event>)
    requires cfg.Valid()
  {
    && (forall k :: 0 <= k < |s.tables.alerts| ==> AlertRowTells(cfg, events, s.tables.alerts[k]))
    && (forall k :: 0 <= k < |s.tables.failures| ==> FailureRowTells(cfg, s, events, s.tables.failures[k]))
  }

  /** Whoever has a row took the alert path, so its count is over the threshold and was replied to it. */
  lemma BookedTells(cfg: Config, s: State, events: seq<Event>, id: Id)
    requires cfg.Valid() && CountDecides(cfg, s.mem) && AllFromEvents(s, events)
    requires InPhase(s, id, Ended(Granted)) || InPhase(s, id, Ended(SentDirectly))
    ensures s.mem.checks[id].count > cfg.threshold
    ensures Begin(id, s.mem.checks[id].service) in events && CountReply(id, s.mem.checks[id].count) in events
  {
    assert DecidedByCount(cfg, s.mem.checks[id]) && FromEvents(events, id, s.mem.checks[id]);
  }

  lemma BookedTookAlertPath(s: State, id: Id)
    requires GrantsOk(s) && DirectsOk(s)
    requires id in s.ledger.completed || id in s.ledger.directDone || id in s.ledger.exhausted || id in s.ledger.directFailed
    ensures InPhase(s, id, Ended(Granted)) || InPhase(s, id, Ended(SentDirectly))
  {
    if id in s.ledger.completed || id in s.ledger.exhausted {
      assert id in GrantedIds(s.mem);
    } else {
      assert id in DirectIds(s.mem.direct);
      assert id in DegradedIds(s.mem) || id in s.mem.rejected;
      assert id in s.mem.rejected ==> id in GrantedIds(s.mem);
    }
  }

  lemma OneAlertRowTells(cfg: Config, s: State, events: seq<Event>, k: nat)
    requires cfg.Valid() && TablesOk(cfg, s) && GrantsOk(s) && DirectsOk(s)
    requires CountDecides(cfg, s.mem) && AllFromEvents(s, events) && k < |s.tables.alerts|
    ensures AlertRowTells(cfg, events, s.tables.alerts[k])
  {
    BookedTookAlertPath(s, s.tables.alerts[k].job);
    BookedTells(cfg, s, events, s.tables.alerts[k].job);
  }

  /** The data of an alert, field by field. */
  lemma AlertDataTells(cfg: Config, id: Id, c: Check)
    requires cfg.Valid()
    ensures var d := AlertOf(cfg, id, c).data;
      && d.service == c.service && d.count == c.count && d.threshold == cfg.threshold && d.windowMs == cfg.window
      && WindowHolds(cfg, d.windowStart, c.readAt)
  {
  }

  lemma FailurePayload(cfg: Config, s: State, k: nat)
    requires cfg.Valid() && TablesOk(cfg, s) && k < |s.tables.failures|
    ensures var r := s.tables.failures[k];
      && r.job in s.mem.checks && r.service == s.mem.checks[r.job].service
      && r.payload == AlertOf(cfg, r.job, s.mem.checks[r.job]).data
      && r.job in s.ledger.exhausted + s.ledger.directFailed
  {
  }

  lemma OneFailureRowTells(cfg: Config, s: State, events: seq<Event>, k: nat)
    requires cfg.Valid() && TablesOk(cfg, s) && GrantsOk(s) && DirectsOk(s)
    requires CountDecides(cfg, s.mem) && AllFromEvents(s, events) && k < |s.tables.failures|
    ensures FailureRowTells(cfg, s, events, s.tables.failures[k])
  {
    var id := s.tables.failures[k].job;
    FailurePayload(cfg, s, k);
    BookedTookAlertPath(s, id);
    BookedTells(cfg, s, events, id);
    AlertDataTells(cfg, id, s.mem.checks[id]);
  }

  lemma StateRowsTell(cfg: Config, s: State, events: seq<Event>)
    requires cfg.Valid() && TablesOk(cfg, s) && GrantsOk(s) && DirectsOk(s)
    requires CountDecides(cfg, s.mem) && AllFromEvents(s, events)
    ensures RowsTell(cfg, s, events)
  {
    forall k | 0 <= k < |s.tables.alerts| ensures AlertRowTells(cfg, events, s.tables.alerts[k]) {
      OneAlertRowTells(cfg, s, events, k);
    }
    forall k | 0 <= k < |s.tables.failures| ensures FailureRowTells(cfg, s, events, s.tables.failures[k]) {
      OneFailureRowTells(cfg, s, events, k);
    }
  }

  /**
   True rows. In every run an `alerts` row has the service its check was started for, the count that was replied to it, the
   settings, and more errors than the threshold; a failure row says the same, and the window its check fell into.
   */
  lemma RowsTellEvents(cfg: Config, states: seq<State>, events: seq<Event>, i: nat)
    requires Run(cfg, states, events) && i < |states|
    ensures RowsTell(cfg, states[i], events[..i])
  {
    RunKeepsInv(cfg, states, events, i);
    RunDecides(cfg, states, events, i);
    ChecksTellEvents(cfg, states, events, i);
    StateRowsTell(cfg, states[i], events[..i]);
  }

  // ---------------------------------------------------------------- the keys

  /** The key of an alert names its service and the window its check fell into. */
  lemma KeyTells(cfg: Config, c: Check)
    requires cfg.Valid()
    ensures AlertKey(cfg, c).service == c.service && WindowHolds(cfg, AlertKey(cfg, c).windowStart, c.readAt)
  {
  }

  /** Two alerts carry the same key exactly when they are of one service and one window holds both clock readings. */
  lemma SameKeyExactly(cfg: Config, c: Check, d: Check)
    requires cfg.Valid()
    ensures AlertKey(cfg, c) == AlertKey(cfg, d)
            <==> c.service == d.service && exists start :: WindowHolds(cfg, start, c.readAt) && WindowHolds(cfg, start, d.readAt)
  {
    KeyTells(cfg, c);
    KeyTells(cfg, d);
    forall start | WindowHolds(cfg, start, c.readAt) && WindowHolds(cfg, start, d.readAt)
      ensures start == AlertKey(cfg, c).windowStart == AlertKey(cfg, d).windowStart
    {
      BucketStartUnique(c.readAt, cfg.window, start);
      BucketStartUnique(d.readAt, cfg.window, start);
    }
  }
}
