/** Keys, locks and direct sends: what every step keeps of them. */
module ProtocolSteps {
  import opened Common
  import opened Protocol
  import opened Histories
  import opened ProtocolInvariants

  // ---------------------------------------------------------------- keys

  ghost predicate LostAreWinners(s: State) {
    forall id :: id in s.ledger.lost ==> id in s.sets && s.sets[id].Won?
  }

  lemma KeysUnchanged(cfg: Config, s: State, t: State)
    requires ChecksOk(s) && ChecksOk(t) && KeysOk(cfg, s)
    requires KeepsStarts(s, t) && KeepsWinners(s, t) && t.keys == s.keys && t.ledger.lost == s.ledger.lost
    ensures KeysOk(cfg, t)
  {
    forall v | v in t.keys
      ensures var k := t.keys[v];
        && k.owner in t.sets && t.sets[k.owner] == Won(k.setAt) && t.mem.checks[k.owner].service == v
        && k.expiresAt == k.setAt + cfg.cooldown
        && k.owner !in t.ledger.lost
    {
      var k := s.keys[v];
      assert k.owner in s.sets && s.sets[k.owner] == Won(k.setAt);
      assert SameStart(s.mem.checks[k.owner], t.mem.checks[k.owner]);
    }
  }

  lemma SetExecutionKeepsKeys(cfg: Config, s: State, id: Id)
    requires cfg.Valid() && ChecksOk(s) && KeysOk(cfg, s) && LostAreWinners(s) && Enabled(cfg, s, SetExecutes(id))
    requires ChecksOk(Apply(cfg, s, SetExecutes(id)))
    ensures KeysOk(cfg, Apply(cfg, s, SetExecutes(id)))
  {
    ExecutionKeepsKeys(cfg, s, ExecuteSet(cfg, s, id), id);
  }

  lemma ExecutionKeepsKeys(cfg: Config, s: State, t: State, id: Id)
    requires s.sets.Keys <= s.mem.checks.Keys && t.sets.Keys <= t.mem.checks.Keys
    requires KeysOk(cfg, s) && LostAreWinners(s) && id in s.sets && s.sets[id] == Sent && t == ExecuteSet(cfg, s, id)
    ensures KeysOk(cfg, t)
  {
  }

  lemma KeysKept(cfg: Config, s: State, e: Event)
    requires cfg.Valid() && ChecksOk(s) && KeysOk(cfg, s) && LostAreWinners(s) && Enabled(cfg, s, e)
    requires ChecksOk(Apply(cfg, s, e))
    ensures KeysOk(cfg, Apply(cfg, s, e))
  {
    match e
    case SetExecutes(id) => SetExecutionKeepsKeys(cfg, s, id);
    case RedisWiped => assert Apply(cfg, s, e).keys == map[];
    case _ => OthersKeepKeys(cfg, s, e);
  }

  lemma OthersKeepKeys(cfg: Config, s: State, e: Event)
    requires cfg.Valid() && ChecksOk(s) && KeysOk(cfg, s) && Enabled(cfg, s, e)
    requires ChecksOk(Apply(cfg, s, e)) && !e.SetExecutes? && !e.RedisWiped?
    ensures KeysOk(cfg, Apply(cfg, s, e))
  {
    StepFramed(cfg, s, e);
    StepKeepsWinners(cfg, s, e);
    KeysUnchanged(cfg, s, Apply(cfg, s, e));
  }

  // ---------------------------------------------------------------- the log of locks

  lemma LogUnchanged(cfg: Config, s: State, t: State)
    requires ChecksOk(s) && ChecksOk(t) && LogOk(cfg, s)
    requires KeepsStarts(s, t) && s.now <= t.now && t.sets.Keys >= s.sets.Keys
    requires forall id :: (id in s.sets && s.sets[id].Won?) || (id in t.sets && t.sets[id].Won?) ==>
                            id in s.sets && id in t.sets && s.sets[id] == t.sets[id]
    requires t.keys == s.keys && t.log == s.log
    ensures LogOk(cfg, t)
  {
    forall e | e in t.log && e.Acquired?
      ensures e.id in t.sets && t.sets[e.id] == Won(e.at) && t.mem.checks[e.id].service == e.service
    {
      assert e in s.log && SameStart(s.mem.checks[e.id], t.mem.checks[e.id]);
    }
    forall id | id in t.sets && t.sets[id].Won?
      ensures Acquired(t.mem.checks[id].service, t.sets[id].at, id) in t.log
    {
      assert id in s.sets && SameStart(s.mem.checks[id], t.mem.checks[id]);
    }
    forall v | LastLock(t.log, v).Some? ensures LockStands(cfg, t, v, LastLock(t.log, v).value) {
      assert LockStands(cfg, s, v, LastLock(s.log, v).value);
    }
  }

  lemma AppendToLog(log: seq<LockEvent>, e: LockEvent, now: Time)
    requires LogOrdered(log) && e.at == now && forall x :: x in log ==> x.at <= now
    ensures LogOrdered(log + [e]) && forall x :: x in log + [e] ==> x.at <= now
  {
    var all := log + [e];
    forall i, j | 0 <= i < j < |all| ensures all[i].at <= all[j].at {
      assert all[i] == log[i] && log[i] in log;
      assert j < |log| ==> all[j] == log[j];
    }
  }

  lemma AppendSpaced(cfg: Config, s: State, e: LockEvent)
    requires s.sets.Keys <= s.mem.checks.Keys && LogOk(cfg, s) && e.at == s.now
    requires e.Acquired? ==> !KeyLive(s, e.service)
    ensures forall v :: Spaced(s.log + [e], v, cfg.cooldown)
  {
    forall v ensures Spaced(s.log + [e], v, cfg.cooldown) {
      assert (s.log + [e])[..|s.log|] == s.log;
      if e.Acquired? && e.service == v && LastLock(s.log, v).Some? {
        assert LockStands(cfg, s, v, LastLock(s.log, v).value);
      }
    }
  }

  lemma WinKeepsLog(cfg: Config, s: State, id: Id)
    requires cfg.Valid() && ChecksOk(s) && LogOk(cfg, s) && Enabled(cfg, s, SetExecutes(id))
    requires !KeyLive(s, s.mem.checks[id].service)
    requires ChecksOk(Apply(cfg, s, SetExecutes(id)))
    ensures LogOk(cfg, Apply(cfg, s, SetExecutes(id)))
  {
    var t := Apply(cfg, s, SetExecutes(id));
    var e := Acquired(s.mem.checks[id].service, s.now, id);
    AppendToLog(s.log, e, s.now);
    AppendSpaced(cfg, s, e);
    WinIsLogged(cfg, s, t, id, e);
    WinStands(cfg, s, t, id);
  }

  lemma WinStands(cfg: Config, s: State, t: State, id: Id)
    requires s.sets.Keys <= s.mem.checks.Keys && LogOk(cfg, s) && id in s.mem.checks && !KeyLive(s, s.mem.checks[id].service)
    requires t == ExecuteSet(cfg, s, id)
    ensures forall v :: LastLock(t.log, v).Some? ==> LockStands(cfg, t, v, LastLock(t.log, v).value)
  {
    forall v | LastLock(t.log, v).Some? ensures LockStands(cfg, t, v, LastLock(t.log, v).value) {
      assert t.log[..|s.log|] == s.log;
      if v != s.mem.checks[id].service {
        assert LockStands(cfg, s, v, LastLock(s.log, v).value);
      }
    }
  }

  lemma WinIsLogged(cfg: Config, s: State, t: State, id: Id, e: LockEvent)
    requires s.sets.Keys <= s.mem.checks.Keys && LogOk(cfg, s) && id in s.sets && s.sets[id] == Sent
    requires e == Acquired(s.mem.checks[id].service, s.now, id)
    requires t.mem == s.mem && t.log == s.log + [e] && t.sets == s.sets[id := Won(s.now)]
    ensures forall x :: x in t.log && x.Acquired? ==>
              x.id in t.sets && t.sets[x.id] == Won(x.at) && t.mem.checks[x.id].service == x.service
    ensures forall x :: x in t.sets && t.sets[x].Won? ==> Acquired(t.mem.checks[x].service, t.sets[x].at, x) in t.log
  {
    forall x | x in t.log && x.Acquired?
      ensures x.id in t.sets && t.sets[x.id] == Won(x.at) && t.mem.checks[x.id].service == x.service
    {
      assert x == e || x in s.log;
    }
    forall x | x in t.sets && t.sets[x].Won? ensures Acquired(t.mem.checks[x].service, t.sets[x].at, x) in t.log {
      if x == id {
        assert t.log[|s.log|] == e;
      } else {
        assert Acquired(s.mem.checks[x].service, s.sets[x].at, x) in s.log;
      }
    }
  }

  lemma SetExecutionKeepsLog(cfg: Config, s: State, id: Id)
    requires cfg.Valid() && ChecksOk(s) && LogOk(cfg, s) && Enabled(cfg, s, SetExecutes(id))
    requires ChecksOk(Apply(cfg, s, SetExecutes(id)))
    ensures LogOk(cfg, Apply(cfg, s, SetExecutes(id)))
  {
    if KeyLive(s, s.mem.checks[id].service) {
      LogUnchanged(cfg, s, Apply(cfg, s, SetExecutes(id)));
    } else {
      WinKeepsLog(cfg, s, id);
    }
  }

  lemma WipeKeepsLog(cfg: Config, s: State)
    requires cfg.Valid() && ChecksOk(s) && LogOk(cfg, s)
    ensures LogOk(cfg, Wipe(s))
  {
    var t := Wipe(s);
    var e := t.log[|s.log|];
    assert t.log == s.log + [e];
    AppendToLog(s.log, e, s.now);
    AppendSpaced(cfg, s, e);
    forall v | LastLock(t.log, v).Some? ensures LockStands(cfg, t, v, LastLock(t.log, v).value) {
      assert t.log[..|s.log|] == s.log;
      assert LockStands(cfg, s, v, LastLock(s.log, v).value);
    }
  }

  lemma CountReplyKeepsLog(cfg: Config, s: State, id: Id, n: nat)
    requires cfg.Valid() && ChecksOk(s) && LogOk(cfg, s) && Enabled(cfg, s, CountReply(id, n))
    requires ChecksOk(Apply(cfg, s, CountReply(id, n)))
    ensures LogOk(cfg, Apply(cfg, s, CountReply(id, n)))
  {
    assert CheckOk(s, id, s.mem.checks[id]);
    CountReplyFramed(cfg, s, id, n);
    var c := CountReplyShape(cfg, s, id, n);
    LogUnchanged(cfg, s, Apply(cfg, s, CountReply(id, n)));
  }

  lemma LogKept(cfg: Config, s: State, e: Event)
    requires cfg.Valid() && ChecksOk(s) && LogOk(cfg, s) && Enabled(cfg, s, e)
    requires ChecksOk(Apply(cfg, s, e))
    ensures LogOk(cfg, Apply(cfg, s, e))
  {
    match e
    case CountReply(id, n) => CountReplyKeepsLog(cfg, s, id, n);
    case SetExecutes(id) => SetExecutionKeepsLog(cfg, s, id);
    case RedisWiped => WipeKeepsLog(cfg, s);
    case _ => OthersKeepLog(cfg, s, e);
  }

  lemma OthersKeepLog(cfg: Config, s: State, e: Event)
    requires cfg.Valid() && ChecksOk(s) && LogOk(cfg, s) && Enabled(cfg, s, e)
    requires ChecksOk(Apply(cfg, s, e)) && !e.CountReply? && !e.SetExecutes? && !e.RedisWiped?
    ensures LogOk(cfg, Apply(cfg, s, e))
  {
    StepFramed(cfg, s, e);
    LogUnchanged(cfg, s, Apply(cfg, s, e));
  }

  // ---------------------------------------------------------------- direct sends

  lemma DirectUnchanged(cfg: Config, s: State, t: State)
    requires DirectOk(cfg, s) && KeepsStarts(s, t) && s.now <= t.now
    requires t.mem.direct == s.mem.direct && t.mem.local == s.mem.local
    ensures DirectOk(cfg, t)
  {
    forall i | 0 <= i < |t.mem.direct|
      ensures var d := t.mem.direct[i];
        && d.id in t.mem.checks && t.mem.checks[d.id].service == d.service
        && t.mem.checks[d.id].readAt <= d.stamp
        && d.firedAt <= t.now
    {
      var d := s.mem.direct[i];
      assert SameStart(s.mem.checks[d.id], t.mem.checks[d.id]);
    }
  }

  /** A send that passed the memory cooldown keeps the sends of its service one cooldown apart. */
  lemma AppendStamp(direct: seq<Direct>, d: Direct, v: Service, c: nat)
    requires StampsSpaced(direct, v, c)
    requires d.service == v ==> (LastStamp(direct, v).Some? ==> LastStamp(direct, v).value + c <= d.stamp)
    ensures StampsSpaced(direct + [d], v, c)
  {
    LastStampIsLargest(direct, v, c);
    var all := direct + [d];
    forall i, j | 0 <= i < j < |all| && all[i].service == v && all[j].service == v
      ensures all[i].stamp + c <= all[j].stamp
    {
      assert all[i] == direct[i];
      if j < |direct| {
        assert all[j] == direct[j];
      }
    }
  }

  lemma SendKeepsDirect(cfg: Config, s: State, t: State, d: Direct)
    requires DirectOk(cfg, s) && KeepsStarts(s, t) && t.now == s.now
    requires LocalFree(s.mem.local, d.service, d.stamp)
    requires t.mem.direct == s.mem.direct + [d]
    requires t.mem.local == s.mem.local[d.service := d.stamp + cfg.cooldown]
    requires d.id in t.mem.checks && t.mem.checks[d.id].service == d.service && t.mem.checks[d.id].readAt <= d.stamp
    requires d.stamp <= d.firedAt <= d.stamp + cfg.latency && d.firedAt == s.now
    ensures DirectOk(cfg, t)
  {
    forall i | 0 <= i < |t.mem.direct|
      ensures var d' := t.mem.direct[i];
        && d'.id in t.mem.checks && t.mem.checks[d'.id].service == d'.service
        && t.mem.checks[d'.id].readAt <= d'.stamp
        && d'.firedAt <= t.now
    {
      if i < |s.mem.direct| {
        assert t.mem.direct[i] == s.mem.direct[i];
        assert SameStart(s.mem.checks[s.mem.direct[i].id], t.mem.checks[s.mem.direct[i].id]);
      }
    }
    forall i | 0 <= i < |t.mem.direct|
      ensures t.mem.direct[i].stamp <= t.mem.direct[i].firedAt <= t.mem.direct[i].stamp + cfg.latency
    {
      assert i < |s.mem.direct| ==> t.mem.direct[i] == s.mem.direct[i];
    }
    forall v ensures StampsSpaced(t.mem.direct, v, cfg.cooldown) {
      assert match LastStamp(s.mem.direct, v) case None => v !in s.mem.local
             case Some(x) => v in s.mem.local && s.mem.local[v] == x + cfg.cooldown;
      AppendStamp(s.mem.direct, d, v, cfg.cooldown);
    }
    assert t.mem.direct[..|s.mem.direct|] == s.mem.direct;
    forall v
      ensures match LastStamp(t.mem.direct, v) case None => v !in t.mem.local
              case Some(x) => v in t.mem.local && t.mem.local[v] == x + cfg.cooldown
    {
      assert match LastStamp(s.mem.direct, v) case None => v !in s.mem.local
             case Some(x) => v in s.mem.local && s.mem.local[v] == x + cfg.cooldown;
    }
  }

  lemma CountReplyKeepsDirect(cfg: Config, s: State, id: Id, n: nat)
    requires cfg.Valid() && ChecksOk(s) && DirectOk(cfg, s) && Enabled(cfg, s, CountReply(id, n))
    ensures DirectOk(cfg, Apply(cfg, s, CountReply(id, n)))
  {
    var t := Apply(cfg, s, CountReply(id, n));
    assert CheckOk(s, id, s.mem.checks[id]);
    CountReplyFramed(cfg, s, id, n);
    var c := CountReplyShape(cfg, s, id, n);
    if Degraded(cfg, s, t, id, c) {
      DegradedKeepsDirect(cfg, s, t, id, c);
    } else {
      DirectUnchanged(cfg, s, t);
    }
  }

  lemma DegradedKeepsDirect(cfg: Config, s: State, t: State, id: Id, c: Check)
    requires DirectOk(cfg, s) && KeepsStarts(s, t) && t.now == s.now
    requires id in s.mem.checks && SameStart(s.mem.checks[id], c) && c.readAt <= s.now <= c.readAt + cfg.latency
    requires Degraded(cfg, s, t, id, c)
    ensures DirectOk(cfg, t)
  {
    if c.phase == Ended(SentDirectly) {
      SendKeepsDirect(cfg, s, t, Direct(id, c.service, c.readAt, s.now));
    } else {
      DirectUnchanged(cfg, s, t);
    }
  }

  lemma SetFailureKeepsDirect(cfg: Config, s: State, id: Id)
    requires cfg.Valid() && ChecksOk(s) && DirectOk(cfg, s) && Enabled(cfg, s, SetFailure(id))
    ensures DirectOk(cfg, Apply(cfg, s, SetFailure(id)))
  {
    assert CheckOk(s, id, s.mem.checks[id]);
    SetFailureFramed(cfg, s, id);
    var c := SetFailureShape(cfg, s, id);
    DegradedKeepsDirect(cfg, s, Apply(cfg, s, SetFailure(id)), id, c);
  }

  lemma RejectionKeepsDirect(cfg: Config, s: State, id: Id)
    requires cfg.Valid() && ChecksOk(s) && DirectOk(cfg, s) && Enabled(cfg, s, EnqueueRejected(id))
    ensures DirectOk(cfg, Apply(cfg, s, EnqueueRejected(id)))
  {
    var t := Apply(cfg, s, EnqueueRejected(id));
    assert CheckOk(s, id, s.mem.checks[id]);
    RejectionShape(cfg, s, id);
    var v := s.mem.checks[id].service;
    if LocalFree(s.mem.local, v, s.now) {
      SendKeepsDirect(cfg, s, t, Direct(id, v, s.now, s.now));
    } else {
      DirectUnchanged(cfg, s, t);
    }
  }

  lemma DirectKept(cfg: Config, s: State, e: Event)
    requires cfg.Valid() && ChecksOk(s) && DirectOk(cfg, s) && Enabled(cfg, s, e)
    ensures DirectOk(cfg, Apply(cfg, s, e))
  {
    match e
    case CountReply(id, n) => CountReplyKeepsDirect(cfg, s, id, n);
    case SetFailure(id) => SetFailureKeepsDirect(cfg, s, id);
    case EnqueueRejected(id) => RejectionKeepsDirect(cfg, s, id);
    case _ => OthersKeepDirect(cfg, s, e);
  }

  lemma OthersKeepDirect(cfg: Config, s: State, e: Event)
    requires cfg.Valid() && DirectOk(cfg, s) && Enabled(cfg, s, e)
    requires !e.CountReply? && !e.SetFailure? && !e.EnqueueRejected?
    ensures DirectOk(cfg, Apply(cfg, s, e))
  {
    StepFramed(cfg, s, e);
    DirectUnchanged(cfg, s, Apply(cfg, s, e));
  }
}
