/** Held-back checks and the accounts of grants, direct sends and table rows: what every step keeps of them. */
module ProtocolAccounts {
  import opened Common
  import opened Alerts
  import opened Protocol
  import opened Histories
  import opened ProtocolInvariants
  import opened ProtocolSteps

  // ---------------------------------------------------------------- held back

  lemma SentAfterExtends(before: seq<Direct>, after: seq<Direct>, v: Service, t: int)
    requires SentAfter(before, v, t) && before <= after
    ensures SentAfter(after, v, t)
  {
    var i :| 0 <= i < |before| && before[i].service == v && before[i].stamp > t;
    assert after[i] == before[i];
  }

  /** A held memory cooldown at `t` comes from a direct send less than a cooldown before. */
  lemma HeldHasSend(cfg: Config, s: State, v: Service, t: Time)
    requires DirectOk(cfg, s) && !LocalFree(s.mem.local, v, t)
    ensures SentAfter(s.mem.direct, v, t - cfg.cooldown)
  {
    assert match LastStamp(s.mem.direct, v) case None => v !in s.mem.local
           case Some(x) => v in s.mem.local && s.mem.local[v] == x + cfg.cooldown;
    LastStampInSends(s.mem.direct, v);
  }

  ghost predicate SendsExtend(s: State, t: State) {
    s.mem.direct <= t.mem.direct
  }

  /** The held-back clause of one check, and of one rejected enqueue. */
  ghost predicate HeldCheckOk(cfg: Config, s: State, id: Id)
    requires id in s.mem.checks
  {
    var c := s.mem.checks[id];
    && (c.phase == Ended(HeldByMemory) ==> SentAfter(s.mem.direct, c.service, c.readAt - cfg.cooldown))
    && (c.phase == Ended(SentDirectly) ==> SentAfter(s.mem.direct, c.service, c.readAt - 1))
  }

  ghost predicate RejectedOk(cfg: Config, s: State, id: Id)
    requires s.sets.Keys <= s.mem.checks.Keys
  {
    && id in s.sets && s.sets[id].Won?
    && SentAfter(s.mem.direct, s.mem.checks[id].service,
                 if id in s.mem.skipped then s.sets[id].at - cfg.cooldown else s.sets[id].at - 1)
  }

  lemma HeldByParts(cfg: Config, s: State)
    requires s.sets.Keys <= s.mem.checks.Keys
    ensures HeldOk(cfg, s) <==>
              && (forall id :: id in s.mem.checks ==> HeldCheckOk(cfg, s, id))
              && (forall id :: id in s.mem.rejected ==> RejectedOk(cfg, s, id))
  {
    if forall id :: id in s.mem.checks ==> HeldCheckOk(cfg, s, id) {
      forall id | id in s.mem.checks && s.mem.checks[id].phase == Ended(HeldByMemory)
        ensures SentAfter(s.mem.direct, s.mem.checks[id].service, s.mem.checks[id].readAt - cfg.cooldown)
      {
        assert HeldCheckOk(cfg, s, id);
      }
      forall id | id in s.mem.checks && s.mem.checks[id].phase == Ended(SentDirectly)
        ensures SentAfter(s.mem.direct, s.mem.checks[id].service, s.mem.checks[id].readAt - 1)
      {
        assert HeldCheckOk(cfg, s, id);
      }
    }
  }

  /** All checks but `id` stand as before, and nothing was sent away. */
  lemma HeldMoved(cfg: Config, s: State, t: State, id: Id)
    requires ChecksOk(s) && ChecksOk(t) && HeldOk(cfg, s)
    requires KeepsStarts(s, t) && KeepsWinners(s, t) && SendsExtend(s, t)
    requires forall x :: x in t.mem.checks && x != id ==> x in s.mem.checks && t.mem.checks[x] == s.mem.checks[x]
    requires id in t.mem.checks ==> HeldCheckOk(cfg, t, id)
    requires t.mem.rejected == s.mem.rejected && t.mem.skipped == s.mem.skipped
    ensures HeldOk(cfg, t)
  {
    HeldByParts(cfg, s);
    HeldByParts(cfg, t);
    forall x | x in t.mem.checks ensures HeldCheckOk(cfg, t, x) {
      if x != id {
        assert HeldCheckOk(cfg, s, x);
        OneHeldKept(cfg, s, t, x);
      }
    }
    forall x | x in t.mem.rejected ensures RejectedOk(cfg, t, x) {
      assert RejectedOk(cfg, s, x);
      OneRejectedKept(cfg, s, t, x);
    }
  }

  lemma OneHeldKept(cfg: Config, s: State, t: State, x: Id)
    requires x in s.mem.checks && x in t.mem.checks && t.mem.checks[x] == s.mem.checks[x]
    requires HeldCheckOk(cfg, s, x) && SendsExtend(s, t)
    ensures HeldCheckOk(cfg, t, x)
  {
    var c := s.mem.checks[x];
    if c.phase == Ended(HeldByMemory) {
      SentAfterExtends(s.mem.direct, t.mem.direct, c.service, c.readAt - cfg.cooldown);
    } else if c.phase == Ended(SentDirectly) {
      SentAfterExtends(s.mem.direct, t.mem.direct, c.service, c.readAt - 1);
    }
  }

  lemma OneRejectedKept(cfg: Config, s: State, t: State, x: Id)
    requires s.sets.Keys <= s.mem.checks.Keys && t.sets.Keys <= t.mem.checks.Keys
    requires RejectedOk(cfg, s, x) && SendsExtend(s, t) && KeepsStarts(s, t) && KeepsWinners(s, t)
    requires x in t.mem.skipped <==> x in s.mem.skipped
    ensures RejectedOk(cfg, t, x)
  {
    assert SameStart(s.mem.checks[x], t.mem.checks[x]);
    SentAfterExtends(s.mem.direct, t.mem.direct, s.mem.checks[x].service,
                     if x in s.mem.skipped then s.sets[x].at - cfg.cooldown else s.sets[x].at - 1);
  }

  lemma DegradedKeepsHeld(cfg: Config, s: State, t: State, id: Id, c: Check)
    requires cfg.Valid() && ChecksOk(s) && ChecksOk(t) && DirectOk(cfg, s) && HeldOk(cfg, s)
    requires KeepsStarts(s, t) && KeepsWinners(s, t) && id in s.mem.checks && SameStart(s.mem.checks[id], c)
    requires Degraded(cfg, s, t, id, c)
    ensures HeldOk(cfg, t)
  {
    if c.phase == Ended(HeldByMemory) {
      HeldHasSend(cfg, s, c.service, c.readAt);
    } else {
      var d := Direct(id, c.service, c.readAt, s.now);
      assert t.mem.direct == s.mem.direct + [d];
      assert t.mem.direct[|s.mem.direct|] == d;
      assert SentAfter(t.mem.direct, c.service, c.readAt - 1);
    }
    HeldMoved(cfg, s, t, id);
  }

  lemma CountReplyKeepsHeld(cfg: Config, s: State, id: Id, n: nat)
    requires cfg.Valid() && ChecksOk(s) && DirectOk(cfg, s) && HeldOk(cfg, s) && Enabled(cfg, s, CountReply(id, n))
    requires ChecksOk(Apply(cfg, s, CountReply(id, n)))
    ensures HeldOk(cfg, Apply(cfg, s, CountReply(id, n)))
  {
    var t := Apply(cfg, s, CountReply(id, n));
    CountReplyFramed(cfg, s, id, n);
    StepKeepsWinners(cfg, s, CountReply(id, n));
    var c := CountReplyShape(cfg, s, id, n);
    if Degraded(cfg, s, t, id, c) {
      DegradedKeepsHeld(cfg, s, t, id, c);
    } else {
      HeldMoved(cfg, s, t, id);
    }
  }

  lemma SetFailureKeepsHeld(cfg: Config, s: State, id: Id)
    requires cfg.Valid() && ChecksOk(s) && DirectOk(cfg, s) && HeldOk(cfg, s) && Enabled(cfg, s, SetFailure(id))
    requires ChecksOk(Apply(cfg, s, SetFailure(id)))
    ensures HeldOk(cfg, Apply(cfg, s, SetFailure(id)))
  {
    SetFailureFramed(cfg, s, id);
    StepKeepsWinners(cfg, s, SetFailure(id));
    var c := SetFailureShape(cfg, s, id);
    DegradedKeepsHeld(cfg, s, Apply(cfg, s, SetFailure(id)), id, c);
  }

  lemma SetReplyKeepsHeld(cfg: Config, s: State, id: Id)
    requires cfg.Valid() && ChecksOk(s) && HeldOk(cfg, s) && Enabled(cfg, s, SetReply(id))
    requires ChecksOk(Apply(cfg, s, SetReply(id)))
    ensures HeldOk(cfg, Apply(cfg, s, SetReply(id)))
  {
    SetReplyFramed(cfg, s, id);
    StepKeepsWinners(cfg, s, SetReply(id));
    var c := SetReplyShape(cfg, s, id);
    HeldMoved(cfg, s, Apply(cfg, s, SetReply(id)), id);
  }

  /** A pending alert is a granted one. */
  ghost predicate PendingAreWinners(s: State) {
    forall id :: id in s.mem.pending ==> id in s.mem.checks && id in s.sets && s.sets[id].Won?
  }

  /** A rejected enqueue joins the rejected ones; the checks stay. */
  lemma RejectedAdded(cfg: Config, s: State, t: State, id: Id)
    requires ChecksOk(s) && ChecksOk(t) && HeldOk(cfg, s) && SendsExtend(s, t)
    requires t.mem.checks == s.mem.checks && t.sets == s.sets
    requires t.mem.rejected == s.mem.rejected + {id}
    requires id !in s.mem.skipped && (t.mem.skipped == s.mem.skipped || t.mem.skipped == s.mem.skipped + {id})
    requires RejectedOk(cfg, t, id)
    ensures HeldOk(cfg, t)
  {
    HeldByParts(cfg, s);
    HeldByParts(cfg, t);
    forall x | x in t.mem.rejected ensures RejectedOk(cfg, t, x) {
      if x != id {
        OneRejectedKept(cfg, s, t, x);
      }
    }
    forall x | x in t.mem.checks ensures HeldCheckOk(cfg, t, x) {
      OneHeldKept(cfg, s, t, x);
    }
  }

  lemma RejectionKeepsHeld(cfg: Config, s: State, id: Id)
    requires cfg.Valid() && ChecksOk(s) && SetsOk(cfg, s) && DirectOk(cfg, s) && HeldOk(cfg, s) && PendingAreWinners(s)
    requires id !in s.mem.rejected && s.mem.skipped <= s.mem.rejected
    requires Enabled(cfg, s, EnqueueRejected(id)) && ChecksOk(Apply(cfg, s, EnqueueRejected(id)))
    ensures HeldOk(cfg, Apply(cfg, s, EnqueueRejected(id)))
  {
    var t := Apply(cfg, s, EnqueueRejected(id));
    var v := s.mem.checks[id].service;
    RejectionShape(cfg, s, id);
    assert SetOk(cfg, s, id);
    assert RejectedOk(cfg, t, id) by {
      if LocalFree(s.mem.local, v, s.now) {
        assert t.mem.direct[|s.mem.direct|] == Direct(id, v, s.now, s.now);
      } else {
        HeldHasSend(cfg, s, v, s.now);
        var i :| 0 <= i < |s.mem.direct| && s.mem.direct[i].service == v && s.mem.direct[i].stamp > s.now - cfg.cooldown;
        assert SentAfter(t.mem.direct, v, s.sets[id].at - cfg.cooldown);
      }
    }
    RejectedAdded(cfg, s, t, id);
  }

  lemma SetExecutionKeepsHeld(cfg: Config, s: State, id: Id)
    requires cfg.Valid() && ChecksOk(s) && HeldOk(cfg, s) && Enabled(cfg, s, SetExecutes(id))
    requires ChecksOk(Apply(cfg, s, SetExecutes(id)))
    ensures HeldOk(cfg, Apply(cfg, s, SetExecutes(id)))
  {
    var t := Apply(cfg, s, SetExecutes(id));
    HeldByParts(cfg, s);
    assert HeldCheckOk(cfg, s, id);
    OneHeldKept(cfg, s, t, id);
    StepKeepsWinners(cfg, s, SetExecutes(id));
    HeldMoved(cfg, s, t, id);
  }

  lemma CheckStartsOrFallsBackKeepsHeld(cfg: Config, s: State, e: Event, id: Id)
    requires cfg.Valid() && ChecksOk(s) && HeldOk(cfg, s) && Enabled(cfg, s, e)
    requires e == CountFailure(id) || (e.Begin? && e.id == id)
    requires ChecksOk(Apply(cfg, s, e))
    ensures HeldOk(cfg, Apply(cfg, s, e))
  {
    StepFramed(cfg, s, e);
    StepKeepsWinners(cfg, s, e);
    HeldMoved(cfg, s, Apply(cfg, s, e), id);
  }

  lemma HeldUnchanged(cfg: Config, s: State, t: State)
    requires ChecksOk(s) && ChecksOk(t) && HeldOk(cfg, s)
    requires t.mem.checks == s.mem.checks && t.sets == s.sets && t.mem.direct == s.mem.direct
    requires t.mem.rejected == s.mem.rejected && t.mem.skipped == s.mem.skipped
    ensures HeldOk(cfg, t)
  {
  }

  lemma HeldKept(cfg: Config, s: State, e: Event)
    requires cfg.Valid() && ChecksOk(s) && SetsOk(cfg, s) && DirectOk(cfg, s) && HeldOk(cfg, s) && PendingAreWinners(s)
    requires s.mem.pending !! s.mem.rejected && s.mem.skipped <= s.mem.rejected
    requires Enabled(cfg, s, e) && ChecksOk(Apply(cfg, s, e))
    ensures HeldOk(cfg, Apply(cfg, s, e))
  {
    match e
    case Begin(id, _) => CheckStartsOrFallsBackKeepsHeld(cfg, s, e, id);
    case CountReply(id, n) => CountReplyKeepsHeld(cfg, s, id, n);
    case CountFailure(id) => CheckStartsOrFallsBackKeepsHeld(cfg, s, e, id);
    case SetExecutes(id) => SetExecutionKeepsHeld(cfg, s, id);
    case SetReply(id) => SetReplyKeepsHeld(cfg, s, id);
    case SetFailure(id) => SetFailureKeepsHeld(cfg, s, id);
    case EnqueueRejected(id) => RejectionKeepsHeld(cfg, s, id);
    case _ => OthersKeepHeld(cfg, s, e);
  }

  lemma OthersKeepHeld(cfg: Config, s: State, e: Event)
    requires cfg.Valid() && ChecksOk(s) && SetsOk(cfg, s) && HeldOk(cfg, s) && Enabled(cfg, s, e)
    requires ChecksOk(Apply(cfg, s, e)) && Aside(e) && !e.EnqueueRejected?
    ensures HeldOk(cfg, Apply(cfg, s, e))
  {
    AsideLeavesChecks(cfg, s, e);
    StepFramed(cfg, s, e);
    HeldUnchanged(cfg, s, Apply(cfg, s, e));
  }

  // ---------------------------------------------------------------- grants

  lemma GrantsUnchanged(s: State, t: State)
    requires GrantsOk(s) && GrantedIds(t.mem) == GrantedIds(s.mem)
    requires t.mem.pending == s.mem.pending && t.queue == s.queue && t.mem.rejected == s.mem.rejected
    requires t.ledger.completed == s.ledger.completed && t.ledger.exhausted == s.ledger.exhausted
    requires t.ledger.unrecorded == s.ledger.unrecorded && t.ledger.lost == s.ledger.lost
    ensures GrantsOk(t)
  {
  }

  /** A step of a check that grants nothing and was not a grant before. */
  lemma NoGrant(s: State, t: State, id: Id)
    requires t.mem.checks.Keys == s.mem.checks.Keys + {id}
    requires forall x :: x in s.mem.checks && x != id ==> t.mem.checks[x] == s.mem.checks[x]
    requires id in s.mem.checks ==> s.mem.checks[id].phase != Ended(Granted)
    requires t.mem.checks[id].phase != Ended(Granted)
    ensures GrantedIds(t.mem) == GrantedIds(s.mem)
  {
  }

  /** A check that goes on or ends without a grant leaves the accounts of the grants alone. */
  lemma UngrantedKeepsGrants(s: State, t: State, e: Event, id: Id, c: Check)
    requires GrantsOk(s) && Framed(s, e, t) && (e.CountReply? || e.SetFailure?)
    requires id in s.mem.checks && !s.mem.checks[id].phase.Ended? && c.phase != Ended(Granted)
    requires t.mem.checks == s.mem.checks[id := c]
    ensures GrantsOk(t)
  {
    NoGrant(s, t, id);
    GrantsUnchanged(s, t);
  }

  lemma CountReplyKeepsGrants(cfg: Config, s: State, id: Id, n: nat)
    requires cfg.Valid() && GrantsOk(s) && Enabled(cfg, s, CountReply(id, n))
    ensures GrantsOk(Apply(cfg, s, CountReply(id, n)))
  {
    CountReplyFramed(cfg, s, id, n);
    var c := CountReplyShape(cfg, s, id, n);
    UngrantedKeepsGrants(s, Apply(cfg, s, CountReply(id, n)), CountReply(id, n), id, c);
  }

  lemma SetFailureKeepsGrants(cfg: Config, s: State, id: Id)
    requires cfg.Valid() && GrantsOk(s) && Enabled(cfg, s, SetFailure(id))
    ensures GrantsOk(Apply(cfg, s, SetFailure(id)))
  {
    SetFailureFramed(cfg, s, id);
    var c := SetFailureShape(cfg, s, id);
    UngrantedKeepsGrants(s, Apply(cfg, s, SetFailure(id)), SetFailure(id), id, c);
  }

  lemma SetReplyKeepsGrants(cfg: Config, s: State, id: Id)
    requires cfg.Valid() && GrantsOk(s) && Enabled(cfg, s, SetReply(id))
    ensures GrantsOk(Apply(cfg, s, SetReply(id)))
  {
    var t := Apply(cfg, s, SetReply(id));
    SetReplyFramed(cfg, s, id);
    var c := SetReplyShape(cfg, s, id);
    if s.sets[id].Won? {
      GrantMadeKeepsGrants(s, t, id, c);
    } else {
      NoGrant(s, t, id);
      GrantsUnchanged(s, t);
    }
  }

  lemma GrantMadeKeepsGrants(s: State, t: State, id: Id, c: Check)
    requires GrantsOk(s) && Framed(s, SetReply(id), t) && InPhase(s, id, Locking)
    requires GrantMade(s, t, id, c) && c.phase == Ended(Granted)
    ensures GrantsOk(t)
  {
    assert GrantedIds(t.mem) == GrantedIds(s.mem) + {id};
    assert id !in GrantedIds(s.mem);
  }

  lemma EnqueueKeepsGrants(cfg: Config, s: State, id: Id)
    requires cfg.Valid() && GrantsOk(s) && Enabled(cfg, s, EnqueueAccepted(id))
    ensures GrantsOk(Apply(cfg, s, EnqueueAccepted(id)))
  {
    var t := Apply(cfg, s, EnqueueAccepted(id));
    assert t.queue.Keys == s.queue.Keys + {id};
    assert GrantedIds(t.mem) == GrantedIds(s.mem);
  }

  lemma RejectionMovesGrant(s: State, t: State, id: Id)
    requires GrantsOk(s) && id in s.mem.pending
    requires t.mem.checks == s.mem.checks && t.mem.pending == s.mem.pending - {id} && t.mem.rejected == s.mem.rejected + {id}
    requires t.queue == s.queue && t.ledger.lost == s.ledger.lost
    requires t.ledger.completed == s.ledger.completed && t.ledger.exhausted == s.ledger.exhausted
    requires t.ledger.unrecorded == s.ledger.unrecorded
    ensures GrantsOk(t)
  {
    assert GrantedIds(t.mem) == GrantedIds(s.mem);
  }

  lemma RejectionKeepsGrants(cfg: Config, s: State, id: Id)
    requires cfg.Valid() && GrantsOk(s) && Enabled(cfg, s, EnqueueRejected(id))
    ensures GrantsOk(Apply(cfg, s, EnqueueRejected(id)))
  {
    RejectionShape(cfg, s, id);
    RejectionMovesGrant(s, Apply(cfg, s, EnqueueRejected(id)), id);
  }

  /** A job that leaves the queue is booked in one place. */
  ghost predicate JobBooked(s: State, t: State, id: Id) {
    && t.mem == s.mem && t.ledger.lost == s.ledger.lost
    && t.queue == s.queue - {id}
    && ((t.ledger.completed == s.ledger.completed + {id} && t.ledger.exhausted == s.ledger.exhausted && t.ledger.unrecorded == s.ledger.unrecorded)
        || (t.ledger.completed == s.ledger.completed && t.ledger.exhausted == s.ledger.exhausted + {id} && t.ledger.unrecorded == s.ledger.unrecorded)
        || (t.ledger.completed == s.ledger.completed && t.ledger.exhausted == s.ledger.exhausted && t.ledger.unrecorded == s.ledger.unrecorded + {id}))
  }

  lemma JobBookedKeepsGrants(s: State, t: State, id: Id)
    requires GrantsOk(s) && JobBooked(s, t, id) && id in s.queue
    ensures GrantsOk(t)
  {
    assert t.queue.Keys == s.queue.Keys - {id};
    assert GrantedIds(t.mem) == GrantedIds(s.mem);
  }

  lemma JobAttemptKeepsGrants(cfg: Config, s: State, id: Id, o: Outcome, f: bool)
    requires cfg.Valid() && GrantsOk(s) && Enabled(cfg, s, JobAttempt(id, o, f))
    ensures GrantsOk(Apply(cfg, s, JobAttempt(id, o, f)))
  {
    var t := Apply(cfg, s, JobAttempt(id, o, f));
    if NextJobState(cfg.webhook, cfg.attempts, s.queue[id], o, f).Waiting? {
      assert t.queue.Keys == s.queue.Keys;
      assert GrantedIds(t.mem) == GrantedIds(s.mem);
    } else {
      JobBookedKeepsGrants(s, t, id);
    }
  }

  lemma WipeKeepsGrants(s: State)
    requires GrantsOk(s)
    ensures GrantsOk(Wipe(s))
  {
    var t := Wipe(s);
    assert t.ledger.lost.Keys == s.ledger.lost.Keys + s.queue.Keys;
    assert GrantedIds(t.mem) == GrantedIds(s.mem);
  }

  lemma CheckStartsOrFallsBackKeepsGrants(cfg: Config, s: State, e: Event, id: Id)
    requires cfg.Valid() && GrantsOk(s) && Enabled(cfg, s, e)
    requires e == CountFailure(id) || (e.Begin? && e.id == id)
    ensures GrantsOk(Apply(cfg, s, e))
  {
    var t := Apply(cfg, s, e);
    StepFramed(cfg, s, e);
    NoGrant(s, t, id);
    GrantsUnchanged(s, t);
  }

  lemma SetExecutionKeepsGrants(cfg: Config, s: State, id: Id)
    requires cfg.Valid() && GrantsOk(s) && Enabled(cfg, s, SetExecutes(id))
    ensures GrantsOk(Apply(cfg, s, SetExecutes(id)))
  {
    SetExecutionLeavesMemory(cfg, s, id);
    GrantsUnchanged(s, Apply(cfg, s, SetExecutes(id)));
  }

  lemma OthersKeepGrants(cfg: Config, s: State, e: Event)
    requires cfg.Valid() && GrantsOk(s) && Enabled(cfg, s, e)
    requires e.Tick? || e.Health? || e.DirectSettles?
    ensures GrantsOk(Apply(cfg, s, e))
  {
    StepFramed(cfg, s, e);
    AsideLeavesChecks(cfg, s, e);
    GrantsUnchanged(s, Apply(cfg, s, e));
  }

  lemma GrantsKept(cfg: Config, s: State, e: Event)
    requires cfg.Valid() && GrantsOk(s) && Enabled(cfg, s, e)
    ensures GrantsOk(Apply(cfg, s, e))
  {
    match e
    case Begin(id, _) => CheckStartsOrFallsBackKeepsGrants(cfg, s, e, id);
    case CountReply(id, n) => CountReplyKeepsGrants(cfg, s, id, n);
    case CountFailure(id) => CheckStartsOrFallsBackKeepsGrants(cfg, s, e, id);
    case SetReply(id) => SetReplyKeepsGrants(cfg, s, id);
    case SetFailure(id) => SetFailureKeepsGrants(cfg, s, id);
    case EnqueueAccepted(id) => EnqueueKeepsGrants(cfg, s, id);
    case EnqueueRejected(id) => RejectionKeepsGrants(cfg, s, id);
    case JobAttempt(id, o, f) => JobAttemptKeepsGrants(cfg, s, id, o, f);
    case RedisWiped => WipeKeepsGrants(s);
    case SetExecutes(id) => SetExecutionKeepsGrants(cfg, s, id);
    case _ => OthersKeepGrants(cfg, s, e);
  }

  // ---------------------------------------------------------------- direct sends

  lemma AppendDirectId(direct: seq<Direct>, d: Direct)
    ensures DirectIds(direct + [d]) == DirectIds(direct) + {d.id}
  {
    var all := direct + [d];
    assert all[|direct|] == d;
    forall x | x in DirectIds(direct) ensures x in DirectIds(all) {
      var i :| 0 <= i < |direct| && direct[i].id == x;
      assert all[i].id == x;
    }
  }

  lemma DirectsUnchanged(s: State, t: State)
    requires DirectsOk(s)
    requires t.mem.skipped == s.mem.skipped && t.mem.rejected == s.mem.rejected && t.mem.direct == s.mem.direct
    requires DegradedIds(t.mem) == DegradedIds(s.mem)
    requires t.ledger.open == s.ledger.open && t.ledger.directDone == s.ledger.directDone
    requires t.ledger.directFailed == s.ledger.directFailed && t.ledger.doubleFailed == s.ledger.doubleFailed
    ensures DirectsOk(t)
  {
  }

  lemma NoDegraded(s: State, t: State, id: Id)
    requires t.mem.checks.Keys == s.mem.checks.Keys + {id}
    requires forall x :: x in s.mem.checks && x != id ==> t.mem.checks[x] == s.mem.checks[x]
    requires id in s.mem.checks ==> s.mem.checks[id].phase != Ended(SentDirectly)
    requires t.mem.checks[id].phase != Ended(SentDirectly)
    ensures DegradedIds(t.mem) == DegradedIds(s.mem)
  {
  }

  /** A new send opens: of a degraded check, or of a rejected enqueue. */
  lemma AccountOpens(skipped: set<Id>, rejected: set<Id>, degraded: set<Id>, sent: set<Id>, sends: nat,
                     open: set<Id>, done: set<Id>, failed: set<Id>, doubleFailed: set<Id>, id: Id)
    requires DirectAccount(skipped, rejected, degraded, sent, sends, open, done, failed, doubleFailed)
    requires id !in rejected && id !in degraded
    ensures DirectAccount(skipped, rejected, degraded + {id}, sent + {id}, sends + 1, open + {id}, done, failed, doubleFailed)
    ensures DirectAccount(skipped, rejected + {id}, degraded, sent + {id}, sends + 1, open + {id}, done, failed, doubleFailed)
  {
    assert id !in sent;
    assert rejected + {id} - skipped == rejected - skipped + {id};
  }

  lemma AccountSkips(skipped: set<Id>, rejected: set<Id>, degraded: set<Id>, sent: set<Id>, sends: nat,
                     open: set<Id>, done: set<Id>, failed: set<Id>, doubleFailed: set<Id>, id: Id)
    requires DirectAccount(skipped, rejected, degraded, sent, sends, open, done, failed, doubleFailed)
    requires id !in rejected
    ensures DirectAccount(skipped + {id}, rejected + {id}, degraded, sent, sends, open, done, failed, doubleFailed)
  {
    assert rejected + {id} - (skipped + {id}) == rejected - skipped;
  }

  lemma AccountSettles(skipped: set<Id>, rejected: set<Id>, degraded: set<Id>, sent: set<Id>, sends: nat,
                       open: set<Id>, done: set<Id>, failed: set<Id>, doubleFailed: set<Id>, id: Id)
    requires DirectAccount(skipped, rejected, degraded, sent, sends, open, done, failed, doubleFailed)
    requires id in open
    ensures DirectAccount(skipped, rejected, degraded, sent, sends, open - {id}, done + {id}, failed, doubleFailed)
    ensures DirectAccount(skipped, rejected, degraded, sent, sends, open - {id}, done, failed + {id}, doubleFailed)
    ensures DirectAccount(skipped, rejected, degraded, sent, sends, open - {id}, done, failed, doubleFailed + {id})
  {
  }

  lemma DegradedKeepsDirects(cfg: Config, s: State, t: State, id: Id, c: Check)
    requires DirectsOk(s) && id in s.mem.checks && !s.mem.checks[id].phase.Ended? && id !in s.mem.rejected
    requires Degraded(cfg, s, t, id, c)
    ensures DirectsOk(t)
  {
    if c.phase == Ended(HeldByMemory) {
      NoDegraded(s, t, id);
      DirectsUnchanged(s, t);
    } else {
      OneMoreDegraded(s, t, id, c);
      AppendDirectId(s.mem.direct, Direct(id, c.service, c.readAt, s.now));
      AccountOpens(s.mem.skipped, s.mem.rejected, DegradedIds(s.mem), DirectIds(s.mem.direct), |s.mem.direct|,
                   s.ledger.open, s.ledger.directDone, s.ledger.directFailed, s.ledger.doubleFailed, id);
    }
  }

  lemma OneMoreDegraded(s: State, t: State, id: Id, c: Check)
    requires id in s.mem.checks && !s.mem.checks[id].phase.Ended?
    requires t.mem.checks == s.mem.checks[id := c] && c.phase == Ended(SentDirectly)
    ensures DegradedIds(t.mem) == DegradedIds(s.mem) + {id} && id !in DegradedIds(s.mem)
  {
  }

  lemma UndegradedKeepsDirects(s: State, t: State, id: Id, c: Check)
    requires DirectsOk(s) && id in s.mem.checks && !s.mem.checks[id].phase.Ended? && c.phase != Ended(SentDirectly)
    requires Moved(s, t, id, c) || SetIssued(s, t, id, c)
    ensures DirectsOk(t)
  {
    NoDegraded(s, t, id);
  }

  lemma CountReplyKeepsDirects(cfg: Config, s: State, id: Id, n: nat)
    requires cfg.Valid() && DirectsOk(s) && id !in s.mem.rejected && Enabled(cfg, s, CountReply(id, n))
    ensures DirectsOk(Apply(cfg, s, CountReply(id, n)))
  {
    var t := Apply(cfg, s, CountReply(id, n));
    var c := CountReplyShape(cfg, s, id, n);
    if Degraded(cfg, s, t, id, c) {
      DegradedKeepsDirects(cfg, s, t, id, c);
    } else {
      UndegradedKeepsDirects(s, t, id, c);
    }
  }

  lemma SetFailureKeepsDirects(cfg: Config, s: State, id: Id)
    requires cfg.Valid() && DirectsOk(s) && id !in s.mem.rejected && Enabled(cfg, s, SetFailure(id))
    ensures DirectsOk(Apply(cfg, s, SetFailure(id)))
  {
    var c := SetFailureShape(cfg, s, id);
    DegradedKeepsDirects(cfg, s, Apply(cfg, s, SetFailure(id)), id, c);
  }

  lemma SetReplyKeepsDirects(cfg: Config, s: State, id: Id)
    requires cfg.Valid() && DirectsOk(s) && Enabled(cfg, s, SetReply(id))
    ensures DirectsOk(Apply(cfg, s, SetReply(id)))
  {
    var t := Apply(cfg, s, SetReply(id));
    SetReplyFramed(cfg, s, id);
    var c := SetReplyShape(cfg, s, id);
    assert t.mem.checks == s.mem.checks[id := c];
    ReplyKeepsDirects(s, t, id, c);
  }

  lemma ReplyKeepsDirects(s: State, t: State, id: Id, c: Check)
    requires DirectsOk(s) && Framed(s, SetReply(id), t) && InPhase(s, id, Locking)
    requires t.mem.checks == s.mem.checks[id := c] && c.phase != Ended(SentDirectly)
    ensures DirectsOk(t)
  {
    NoDegraded(s, t, id);
    DirectsUnchanged(s, t);
  }

  /** A rejected enqueue is either sent directly or skipped. */
  lemma RejectionMovesDirects(cfg: Config, s: State, t: State, id: Id, d: Direct)
    requires DirectsOk(s) && id !in s.mem.rejected && id !in DegradedIds(s.mem) && d.id == id
    requires RejectionSent(cfg, s, t, d) || RejectionSkipped(s, t, id)
    ensures DirectsOk(t)
  {
    assert DegradedIds(t.mem) == DegradedIds(s.mem);
    if RejectionSent(cfg, s, t, d) {
      AppendDirectId(s.mem.direct, d);
      AccountOpens(s.mem.skipped, s.mem.rejected, DegradedIds(s.mem), DirectIds(s.mem.direct), |s.mem.direct|,
                   s.ledger.open, s.ledger.directDone, s.ledger.directFailed, s.ledger.doubleFailed, id);
    } else {
      AccountSkips(s.mem.skipped, s.mem.rejected, DegradedIds(s.mem), DirectIds(s.mem.direct), |s.mem.direct|,
                   s.ledger.open, s.ledger.directDone, s.ledger.directFailed, s.ledger.doubleFailed, id);
    }
  }

  lemma RejectionKeepsDirects(cfg: Config, s: State, id: Id)
    requires cfg.Valid() && DirectsOk(s) && id !in s.mem.rejected && Enabled(cfg, s, EnqueueRejected(id))
    requires id !in DegradedIds(s.mem)
    ensures DirectsOk(Apply(cfg, s, EnqueueRejected(id)))
  {
    RejectionShape(cfg, s, id);
    RejectionMovesDirects(cfg, s, Apply(cfg, s, EnqueueRejected(id)), id, Direct(id, s.mem.checks[id].service, s.now, s.now));
  }

  lemma SettleKeepsDirects(cfg: Config, s: State, id: Id, o: Outcome, f: bool)
    requires cfg.Valid() && DirectsOk(s) && Enabled(cfg, s, DirectSettles(id, o, f))
    ensures DirectsOk(Apply(cfg, s, DirectSettles(id, o, f)))
  {
    AccountSettles(s.mem.skipped, s.mem.rejected, DegradedIds(s.mem), DirectIds(s.mem.direct), |s.mem.direct|,
                   s.ledger.open, s.ledger.directDone, s.ledger.directFailed, s.ledger.doubleFailed, id);
  }

  lemma CheckStartsOrFallsBackKeepsDirects(cfg: Config, s: State, e: Event, id: Id)
    requires cfg.Valid() && DirectsOk(s) && Enabled(cfg, s, e)
    requires e == CountFailure(id) || (e.Begin? && e.id == id)
    ensures DirectsOk(Apply(cfg, s, e))
  {
    var t := Apply(cfg, s, e);
    StepFramed(cfg, s, e);
    assert t.mem.checks == s.mem.checks[id := t.mem.checks[id]];
    FramedKeepsDirects(s, t, e, id);
  }

  lemma FramedKeepsDirects(s: State, t: State, e: Event, id: Id)
    requires DirectsOk(s) && Framed(s, e, t) && (e.CountFailure? || e.Begin?)
    requires id in t.mem.checks && t.mem.checks == s.mem.checks[id := t.mem.checks[id]]
    requires id in s.mem.checks ==> s.mem.checks[id].phase != Ended(SentDirectly)
    requires t.mem.checks[id].phase != Ended(SentDirectly)
    ensures DirectsOk(t)
  {
    NoDegraded(s, t, id);
    DirectsUnchanged(s, t);
  }

  lemma SetExecutionKeepsDirects(cfg: Config, s: State, id: Id)
    requires cfg.Valid() && DirectsOk(s) && Enabled(cfg, s, SetExecutes(id))
    ensures DirectsOk(Apply(cfg, s, SetExecutes(id)))
  {
    SetExecutionLeavesMemory(cfg, s, id);
  }

  lemma OthersKeepDirects(cfg: Config, s: State, e: Event)
    requires cfg.Valid() && DirectsOk(s) && Enabled(cfg, s, e)
    requires Aside(e) && !e.EnqueueRejected? && !e.DirectSettles?
    ensures DirectsOk(Apply(cfg, s, e))
  {
    AsideLeavesChecks(cfg, s, e);
    StepFramed(cfg, s, e);
    assert DegradedIds(Apply(cfg, s, e).mem) == DegradedIds(s.mem);
    DirectsUnchanged(s, Apply(cfg, s, e));
  }

  lemma DirectsKept(cfg: Config, s: State, e: Event)
    requires cfg.Valid() && DirectsOk(s) && GrantsOk(s) && Enabled(cfg, s, e)
    ensures DirectsOk(Apply(cfg, s, e))
  {
    match e
    case Begin(id, _) => CheckStartsOrFallsBackKeepsDirects(cfg, s, e, id);
    case CountReply(id, n) =>
      NotRejected(s, id);
      CountReplyKeepsDirects(cfg, s, id, n);
    case CountFailure(id) => CheckStartsOrFallsBackKeepsDirects(cfg, s, e, id);
    case SetReply(id) => SetReplyKeepsDirects(cfg, s, id);
    case SetFailure(id) =>
      NotRejected(s, id);
      SetFailureKeepsDirects(cfg, s, id);
    case EnqueueRejected(id) =>
      PendingIsGranted(s, id);
      RejectionKeepsDirects(cfg, s, id);
    case DirectSettles(id, o, f) => SettleKeepsDirects(cfg, s, id, o, f);
    case SetExecutes(id) => SetExecutionKeepsDirects(cfg, s, id);
    case _ => OthersKeepDirects(cfg, s, e);
  }

  lemma NotRejected(s: State, id: Id)
    requires GrantsOk(s) && id in s.mem.checks && s.mem.checks[id].phase != Ended(Granted)
    ensures id !in s.mem.rejected
  {
    assert id !in GrantedIds(s.mem);
  }

  lemma PendingIsGranted(s: State, id: Id)
    requires GrantsOk(s) && id in s.mem.pending
    ensures id in GrantedIds(s.mem) && id !in s.mem.rejected && id !in DegradedIds(s.mem)
  {
    assert id in GrantedIds(s.mem);
  }

  // ---------------------------------------------------------------- tables and queue

  /** What the rows say of their check is settled before they are written. */
  ghost predicate RowsStand(cfg: Config, s: State, t: State)
    requires cfg.Valid()
  {
    forall id :: id in s.mem.checks && s.mem.checks[id].phase.Ended? ==>
      id in t.mem.checks && AlertOf(cfg, id, t.mem.checks[id]) == AlertOf(cfg, id, s.mem.checks[id])
  }

  /** Booked alerts belong to checks that have ended. */
  lemma BookedHaveEnded(s: State, id: Id)
    requires GrantsOk(s) && DirectsOk(s)
    requires id in s.ledger.completed + s.ledger.exhausted + s.ledger.directDone + s.ledger.directFailed + s.ledger.open + s.queue.Keys
    ensures id in s.mem.checks && s.mem.checks[id].phase.Ended?
  {
    if id in s.ledger.completed + s.ledger.exhausted + s.queue.Keys {
      assert id in GrantedIds(s.mem);
    } else {
      assert id in DirectIds(s.mem.direct);
      assert id in DegradedIds(s.mem) || id in s.mem.rejected;
      assert id in s.mem.rejected ==> id in GrantedIds(s.mem);
    }
  }

  /** The queue's bookings and the direct ones have no id in common. */
  lemma BookingsApart(s: State)
    requires GrantsOk(s) && DirectsOk(s)
    ensures (s.ledger.completed + s.ledger.exhausted + s.queue.Keys) !! DirectIds(s.mem.direct)
  {
    forall id | id in DirectIds(s.mem.direct)
      ensures id !in s.ledger.completed + s.ledger.exhausted + s.queue.Keys
    {
      assert id in DegradedIds(s.mem) || id in s.mem.rejected;
      assert id in DegradedIds(s.mem) ==> id !in GrantedIds(s.mem);
    }
  }

  lemma TablesUnchanged(cfg: Config, s: State, t: State)
    requires cfg.Valid() && TablesOk(cfg, s) && GrantsOk(s) && DirectsOk(s) && RowsStand(cfg, s, t)
    requires t.tables.alerts == s.tables.alerts && t.tables.failures == s.tables.failures
    requires t.ledger.completed == s.ledger.completed && t.ledger.directDone == s.ledger.directDone
    requires t.ledger.exhausted == s.ledger.exhausted && t.ledger.directFailed == s.ledger.directFailed
    ensures TablesOk(cfg, t)
  {
    forall i | 0 <= i < |t.tables.alerts|
      ensures var id := t.tables.alerts[i].job;
        && id in t.mem.checks && id in t.ledger.completed + t.ledger.directDone
        && t.tables.alerts[i] == RowOf(AlertOf(cfg, id, t.mem.checks[id]))
    {
      BookedHaveEnded(s, s.tables.alerts[i].job);
    }
    forall i | 0 <= i < |t.tables.failures|
      ensures var id := t.tables.failures[i].job;
        && id in t.mem.checks && id in t.ledger.exhausted + t.ledger.directFailed
        && t.tables.failures[i] == FailureOf(AlertOf(cfg, id, t.mem.checks[id]),
                                             if id in t.ledger.exhausted then cfg.attempts else 1)
    {
      BookedHaveEnded(s, s.tables.failures[i].job);
    }
  }

  lemma CodeKeepsRows(cfg: Config, s: State, e: Event)
    requires cfg.Valid() && Enabled(cfg, s, e)
    ensures RowsStand(cfg, s, Apply(cfg, s, e))
  {
    match e
    case CountReply(id, n) =>
      var c := CountReplyShape(cfg, s, id, n);
    case SetReply(id) =>
      var c := SetReplyShape(cfg, s, id);
    case SetFailure(id) =>
      var c := SetFailureShape(cfg, s, id);
    case SetExecutes(id) => SetExecutionLeavesMemory(cfg, s, id);
    case Begin(id, _) =>
    case CountFailure(id) =>
    case _ => AsideLeavesChecks(cfg, s, e);
  }

  /** A completed alert, by the queue or directly, adds its row. */
  lemma AlertRowAdded(cfg: Config, s: State, t: State, id: Id)
    requires cfg.Valid() && TablesOk(cfg, s) && id in s.mem.checks
    requires id !in s.ledger.completed + s.ledger.directDone
    requires t.mem == s.mem
    requires t.tables.alerts == s.tables.alerts + [RowOf(AlertOf(cfg, id, s.mem.checks[id]))]
    requires t.tables.failures == s.tables.failures
    requires t.ledger.exhausted == s.ledger.exhausted && t.ledger.directFailed == s.ledger.directFailed
    requires (t.ledger.completed == s.ledger.completed + {id} && t.ledger.directDone == s.ledger.directDone)
          || (t.ledger.completed == s.ledger.completed && t.ledger.directDone == s.ledger.directDone + {id})
    ensures TablesOk(cfg, t)
  {
    var n := |s.tables.alerts|;
    assert forall i :: 0 <= i < n ==> t.tables.alerts[i] == s.tables.alerts[i];
    assert t.tables.alerts[n].job == id;
  }

  lemma FailureRowAdded(cfg: Config, s: State, t: State, id: Id)
    requires cfg.Valid() && TablesOk(cfg, s) && id in s.mem.checks
    requires id !in s.ledger.exhausted + s.ledger.directFailed
    requires t.mem == s.mem
    requires t.tables.alerts == s.tables.alerts
    requires t.ledger.completed == s.ledger.completed && t.ledger.directDone == s.ledger.directDone
    requires (t.ledger.exhausted == s.ledger.exhausted + {id} && t.ledger.directFailed == s.ledger.directFailed)
          || (t.ledger.exhausted == s.ledger.exhausted && t.ledger.directFailed == s.ledger.directFailed + {id})
    requires t.tables.failures == s.tables.failures
                                  + [FailureOf(AlertOf(cfg, id, s.mem.checks[id]),
                                               if id in t.ledger.exhausted then cfg.attempts else 1)]
    ensures TablesOk(cfg, t)
  {
    var n := |s.tables.failures|;
    assert forall i :: 0 <= i < n ==> t.tables.failures[i] == s.tables.failures[i];
    assert t.tables.failures[n].job == id;
  }

  lemma JobCompletesKeepsTables(cfg: Config, s: State, id: Id, o: Outcome, f: bool)
    requires cfg.Valid() && TablesOk(cfg, s) && Enabled(cfg, s, JobAttempt(id, o, f))
    requires id !in s.ledger.completed + s.ledger.directDone && Dispatches(cfg.webhook, o)
    ensures TablesOk(cfg, Apply(cfg, s, JobAttempt(id, o, f)))
  {
    AlertRowAdded(cfg, s, AttemptJob(cfg, s, id, o, f), id);
  }

  lemma JobExhaustsKeepsTables(cfg: Config, s: State, id: Id, o: Outcome, f: bool)
    requires cfg.Valid() && TablesOk(cfg, s) && Enabled(cfg, s, JobAttempt(id, o, f)) && QueueOk(cfg, s)
    requires id !in s.ledger.exhausted + s.ledger.directFailed
    requires NextJobState(cfg.webhook, cfg.attempts, s.queue[id], o, f) == Exhausted(true)
    ensures TablesOk(cfg, Apply(cfg, s, JobAttempt(id, o, f)))
  {
    FailureRowAdded(cfg, s, AttemptJob(cfg, s, id, o, f), id);
  }

  lemma RowlessKeepsTables(cfg: Config, s: State, t: State)
    requires cfg.Valid() && TablesOk(cfg, s) && t.mem == s.mem
    requires t.tables.alerts == s.tables.alerts && t.tables.failures == s.tables.failures
    requires t.ledger.completed == s.ledger.completed && t.ledger.directDone == s.ledger.directDone
    requires t.ledger.exhausted == s.ledger.exhausted && t.ledger.directFailed == s.ledger.directFailed
    ensures TablesOk(cfg, t)
  {
  }

  lemma JobWithoutRowKeepsTables(cfg: Config, s: State, id: Id, o: Outcome, f: bool)
    requires cfg.Valid() && TablesOk(cfg, s) && Enabled(cfg, s, JobAttempt(id, o, f))
    requires var n := NextJobState(cfg.webhook, cfg.attempts, s.queue[id], o, f); n.Waiting? || n == Exhausted(false)
    ensures TablesOk(cfg, Apply(cfg, s, JobAttempt(id, o, f)))
  {
    RowlessKeepsTables(cfg, s, AttemptJob(cfg, s, id, o, f));
  }

  lemma QueuedIsUnbooked(s: State, id: Id)
    requires GrantsOk(s) && DirectsOk(s) && id in s.queue
    ensures id !in s.ledger.completed + s.ledger.directDone
    ensures id !in s.ledger.exhausted + s.ledger.directFailed
  {
    BookingsApart(s);
    assert id !in DirectIds(s.mem.direct);
  }

  lemma JobAttemptKeepsTables(cfg: Config, s: State, id: Id, o: Outcome, f: bool)
    requires cfg.Valid() && TablesOk(cfg, s) && QueueOk(cfg, s) && Enabled(cfg, s, JobAttempt(id, o, f))
    requires id !in s.ledger.completed + s.ledger.directDone
    requires id !in s.ledger.exhausted + s.ledger.directFailed
    ensures TablesOk(cfg, Apply(cfg, s, JobAttempt(id, o, f)))
  {
    match NextJobState(cfg.webhook, cfg.attempts, s.queue[id], o, f)
    case Waiting(_) => JobWithoutRowKeepsTables(cfg, s, id, o, f);
    case Completed => JobCompletesKeepsTables(cfg, s, id, o, f);
    case Exhausted(recorded) =>
      if recorded {
        JobExhaustsKeepsTables(cfg, s, id, o, f);
      } else {
        JobWithoutRowKeepsTables(cfg, s, id, o, f);
      }
  }

  lemma SettleKeepsTables(cfg: Config, s: State, id: Id, o: Outcome, f: bool)
    requires cfg.Valid() && TablesOk(cfg, s) && GrantsOk(s) && DirectsOk(s)
    requires Enabled(cfg, s, DirectSettles(id, o, f))
    ensures TablesOk(cfg, Apply(cfg, s, DirectSettles(id, o, f)))
  {
    OpenIsUnbooked(s, id);
    SettlementKeepsTables(cfg, s, SettleDirect(cfg, s, id, o, f), id, o, f);
  }

  lemma OpenIsUnbooked(s: State, id: Id)
    requires GrantsOk(s) && DirectsOk(s) && id in s.ledger.open
    ensures id !in s.ledger.completed + s.ledger.directDone
    ensures id !in s.ledger.exhausted + s.ledger.directFailed
  {
    BookingsApart(s);
    assert id in DirectIds(s.mem.direct);
  }

  lemma SettlementKeepsTables(cfg: Config, s: State, t: State, id: Id, o: Outcome, f: bool)
    requires cfg.Valid() && TablesOk(cfg, s) && id in s.mem.checks && t == SettleDirect(cfg, s, id, o, f)
    requires id !in s.ledger.completed + s.ledger.directDone
    requires id !in s.ledger.exhausted + s.ledger.directFailed
    ensures TablesOk(cfg, t)
  {
    if Dispatches(cfg.webhook, o) {
      AlertRowAdded(cfg, s, t, id);
    } else if f {
      FailureRowAdded(cfg, s, t, id);
    } else {
      assert t.tables.alerts == s.tables.alerts && t.tables.failures == s.tables.failures;
    }
  }

  lemma TablesKept(cfg: Config, s: State, e: Event)
    requires cfg.Valid() && TablesOk(cfg, s) && GrantsOk(s) && DirectsOk(s) && QueueOk(cfg, s) && Enabled(cfg, s, e)
    ensures TablesOk(cfg, Apply(cfg, s, e))
  {
    match e
    case JobAttempt(id, o, f) =>
      QueuedIsUnbooked(s, id);
      JobAttemptKeepsTables(cfg, s, id, o, f);
    case DirectSettles(id, o, f) => SettleKeepsTables(cfg, s, id, o, f);
    case _ => OthersKeepTables(cfg, s, e);
  }

  lemma OthersKeepTables(cfg: Config, s: State, e: Event)
    requires cfg.Valid() && TablesOk(cfg, s) && GrantsOk(s) && DirectsOk(s) && Enabled(cfg, s, e)
    requires !e.JobAttempt? && !e.DirectSettles?
    ensures TablesOk(cfg, Apply(cfg, s, e))
  {
    StepFramed(cfg, s, e);
    CodeKeepsRows(cfg, s, e);
    TablesUnchanged(cfg, s, Apply(cfg, s, e));
  }

  lemma QueueKept(cfg: Config, s: State, e: Event)
    requires cfg.Valid() && QueueOk(cfg, s) && Enabled(cfg, s, e)
    ensures QueueOk(cfg, Apply(cfg, s, e))
  {
    match e
    case JobAttempt(id, o, f) =>
      var t := Apply(cfg, s, e);
      forall x | x in t.queue ensures t.queue[x] < cfg.attempts {
        if x != id {
          assert x in s.queue;
        }
      }
    case EnqueueAccepted(id) =>
    case RedisWiped =>
    case _ => StepFramed(cfg, s, e);
  }

  // ---------------------------------------------------------------- the whole invariant

  lemma GrantFacts(s: State)
    requires ChecksOk(s) && GrantsOk(s)
    ensures LostAreWinners(s) && PendingAreWinners(s)
  {
    forall id | id in s.ledger.lost || id in s.mem.pending
      ensures id in s.mem.checks && id in s.sets && s.sets[id].Won?
    {
      assert id in GrantedIds(s.mem);
      assert CheckOk(s, id, s.mem.checks[id]);
    }
  }

  lemma StepKeepsInv(cfg: Config, s: State, e: Event)
    requires cfg.Valid() && Inv(cfg, s) && Enabled(cfg, s, e)
    ensures Inv(cfg, Apply(cfg, s, e))
  {
    GrantFacts(s);
    ChecksKept(cfg, s, e);
    SetsKept(cfg, s, e);
    KeysKept(cfg, s, e);
    LogKept(cfg, s, e);
    DirectKept(cfg, s, e);
    HeldKept(cfg, s, e);
    GrantsKept(cfg, s, e);
    DirectsKept(cfg, s, e);
    TablesKept(cfg, s, e);
    QueueKept(cfg, s, e);
  }

  lemma StartHolds(cfg: Config, now: Time)
    requires cfg.Valid()
    ensures Inv(cfg, Start(now))
  {
  }

  /** The invariant holds in every state of every run. */
  lemma {:induction false} RunKeepsInv(cfg: Config, states: seq<State>, events: seq<Event>, i: nat)
    requires Run(cfg, states, events) && i < |states|
    ensures Inv(cfg, states[i])
  {
    if i == 0 {
      StartHolds(cfg, states[0].now);
    } else {
      RunKeepsInv(cfg, states, events, i - 1);
      StepKeepsInv(cfg, states[i - 1], events[i - 1]);
    }
  }
}
