/**
 Histories of cooldown locks and of direct sends: the newest entry of a service, entries at least one cooldown apart,
 and how many fit into an interval.
 */
module Histories {
  import opened Common
  import opened Protocol

  ghost predicate LogOrdered(log: seq<LockEvent>) {
    forall i, j :: 0 <= i < j < |log| ==> log[i].at <= log[j].at
  }

  /** The time of the newest lock of `v` that no data loss has destroyed while it was live. */
  function LastLock(log: seq<LockEvent>, v: Service): Option<Time> {
    if log == [] then None
    else
      var e := log[|log| - 1];
      var before := log[..|log| - 1];
      match e
      case Acquired(u, at, _) => if u == v then Some(at) else LastLock(before, v)
      case Wiped(_, live) => if v in live then None else LastLock(before, v)
  }

  /** Each lock of `v` comes at least `c` after the one before it, unless that one was destroyed. */
  ghost predicate Spaced(log: seq<LockEvent>, v: Service, c: nat) {
    log == [] ||
    (var e := log[|log| - 1];
     var before := log[..|log| - 1];
     && Spaced(before, v, c)
     && (e.Acquired? && e.service == v && LastLock(before, v).Some? ==> LastLock(before, v).value + c <= e.at))
  }

  predicate LockIn(e: LockEvent, v: Service, lo: Time, hi: Time) {
    e.Acquired? && e.service == v && lo <= e.at <= hi
  }

  predicate LossIn(e: LockEvent, v: Service, lo: Time, hi: Time) {
    e.Wiped? && v in e.live && lo <= e.at <= hi
  }

  function Locks(log: seq<LockEvent>, v: Service, lo: Time, hi: Time): nat {
    if log == [] then 0
    else Locks(log[..|log| - 1], v, lo, hi) + if LockIn(log[|log| - 1], v, lo, hi) then 1 else 0
  }

  /** Live cooldown keys of `v` destroyed in the interval. */
  function Losses(log: seq<LockEvent>, v: Service, lo: Time, hi: Time): nat {
    if log == [] then 0
    else Losses(log[..|log| - 1], v, lo, hi) + if LossIn(log[|log| - 1], v, lo, hi) then 1 else 0
  }

  /** The newest lock of `v` in the interval, destroyed or not. */
  ghost function NewestIn(log: seq<LockEvent>, v: Service, lo: Time, hi: Time): (t: Time)
    requires Locks(log, v, lo, hi) > 0
    ensures lo <= t <= hi
    ensures exists e :: e in log && e.at == t
  {
    var e := log[|log| - 1];
    if LockIn(e, v, lo, hi) then e.at else NewestIn(log[..|log| - 1], v, lo, hi)
  }

  lemma {:induction false} LastLockIsNewest(log: seq<LockEvent>, v: Service, lo: Time, hi: Time)
    requires LogOrdered(log) && LastLock(log, v).Some?
    requires lo <= LastLock(log, v).value <= hi
    requires forall e :: e in log ==> e.at <= hi
    ensures Locks(log, v, lo, hi) > 0 && NewestIn(log, v, lo, hi) == LastLock(log, v).value
  {
    var before := log[..|log| - 1];
    var e := log[|log| - 1];
    if !(e.Acquired? && e.service == v) {
      LastLockIsNewest(before, v, lo, hi);
    }
  }

  lemma {:induction false} LastLockInLog(log: seq<LockEvent>, v: Service)
    requires LastLock(log, v).Some?
    ensures exists i :: 0 <= i < |log| && log[i].Acquired? && log[i].service == v && log[i].at == LastLock(log, v).value
  {
    var before := log[..|log| - 1];
    var e := log[|log| - 1];
    if !(e.Acquired? && e.service == v) {
      LastLockInLog(before, v);
      var i :| 0 <= i < |before| && before[i].Acquired? && before[i].service == v && before[i].at == LastLock(before, v).value;
      assert log[i] == before[i];
    }
  }

  lemma {:induction false} NoLocksBefore(log: seq<LockEvent>, v: Service, lo: Time, hi: Time)
    requires forall e :: e in log ==> e.at < lo
    ensures Locks(log, v, lo, hi) == 0
  {
    if log != [] {
      NoLocksBefore(log[..|log| - 1], v, lo, hi);
    }
  }

  lemma {:induction false} StandingLockBeforeInterval(log: seq<LockEvent>, v: Service, lo: Time, hi: Time)
    requires LogOrdered(log) && LastLock(log, v).Some? && LastLock(log, v).value < lo
    ensures Locks(log, v, lo, hi) == 0
  {
    var e := log[|log| - 1];
    if e.Acquired? && e.service == v {
      NoLocksBefore(log, v, lo, hi);
    } else {
      StandingLockBeforeInterval(log[..|log| - 1], v, lo, hi);
    }
  }

  /** `n` cooldowns of length `c`; a product, by steps of one. */
  ghost function Cooldowns(c: nat, n: int): int
    decreases if n >= 0 then n else -n
  {
    if n == 0 then 0 else if n > 0 then Cooldowns(c, n - 1) + c else Cooldowns(c, n + 1) - c
  }

  lemma {:induction false} CooldownsMultiply(c: nat, n: int)
    ensures Cooldowns(c, n) == c * n
    decreases if n >= 0 then n else -n
  {
    if n > 0 {
      CooldownsMultiply(c, n - 1);
    } else if n < 0 {
      CooldownsMultiply(c, n + 1);
    }
  }

  /** How far into the interval its newest lock lies. */
  ghost function Reach(log: seq<LockEvent>, v: Service, lo: Time, hi: Time): nat {
    if Locks(log, v, lo, hi) > 0 then NewestIn(log, v, lo, hi) - lo else 0
  }

  /**
   The heart of the duplication bound: with `locks` and `losses` in an interval, the gaps between locks without a loss in
   between fit one after the other before the newest lock at `x`. A loss not yet followed by a lock leaves room for one more.
   */
  ghost predicate Fits(c: nat, locks: nat, losses: nat, x: int, stands: bool) {
    var gaps: int := locks as int - losses - 1;
    locks > 0 ==> Cooldowns(c, gaps) <= x && (!stands ==> Cooldowns(c, gaps + 1) <= x)
  }

  lemma FitsAfterLoss(c: nat, locks: nat, losses: nat, x: int, stands: bool)
    requires Fits(c, locks, losses, x, stands)
    ensures Fits(c, locks, losses + 1, x, false)
  {
    var gaps: int := locks as int - losses - 1;
    assert Cooldowns(c, gaps - 1) <= Cooldowns(c, gaps);
  }

  lemma FitsAfterLock(c: nat, locks: nat, losses: nat, x: int, stands: bool, y: nat)
    requires Fits(c, locks, losses, x, stands)
    requires locks > 0 ==> if stands then x + c <= y else x <= y
    ensures Fits(c, locks + 1, losses, y, true)
  {
    if locks == 0 {
      var gaps: int := -(losses as int);
      CooldownsMultiply(c, gaps);
      ScaleUp(c, gaps, 0);
    } else {
      var gaps: int := locks as int - losses - 1;
      assert Cooldowns(c, gaps + 1) == Cooldowns(c, gaps) + c;
    }
  }

  ghost predicate GapsFit(log: seq<LockEvent>, v: Service, c: nat, lo: Time, hi: Time) {
    Fits(c, Locks(log, v, lo, hi), Losses(log, v, lo, hi), Reach(log, v, lo, hi), LastLock(log, v).Some?)
  }

  lemma OrderedSplit(log: seq<LockEvent>, e: LockEvent)
    requires LogOrdered(log + [e])
    ensures LogOrdered(log) && forall x :: x in log ==> x.at <= e.at
  {
    var all := log + [e];
    assert forall i :: 0 <= i < |log| ==> all[i] == log[i];
    assert all[|log|] == e;
  }

  lemma StandingLockInInterval(log: seq<LockEvent>, v: Service, lo: Time, hi: Time)
    requires LogOrdered(log) && LastLock(log, v).Some?
    requires forall e :: e in log ==> e.at <= hi
    requires Locks(log, v, lo, hi) > 0
    ensures NewestIn(log, v, lo, hi) == LastLock(log, v).value
  {
    LastLockInLog(log, v);
    if LastLock(log, v).value < lo {
      StandingLockBeforeInterval(log, v, lo, hi);
    } else {
      LastLockIsNewest(log, v, lo, hi);
    }
  }

  lemma LockAppended(log: seq<LockEvent>, e: LockEvent, v: Service, lo: Time, hi: Time)
    requires LockIn(e, v, lo, hi)
    ensures Locks(log + [e], v, lo, hi) == Locks(log, v, lo, hi) + 1
    ensures Losses(log + [e], v, lo, hi) == Losses(log, v, lo, hi)
    ensures Reach(log + [e], v, lo, hi) == e.at - lo && LastLock(log + [e], v).Some?
  {
    assert (log + [e])[..|log|] == log;
  }

  /** The newest lock of the interval lies before the next one, by a cooldown if it was not destroyed. */
  lemma NextLockIsLater(log: seq<LockEvent>, e: LockEvent, v: Service, c: nat, lo: Time, hi: Time)
    requires LogOrdered(log + [e]) && Spaced(log + [e], v, c) && LockIn(e, v, lo, hi)
    requires Locks(log, v, lo, hi) > 0
    ensures NewestIn(log, v, lo, hi) <= e.at
    ensures LastLock(log, v).Some? ==> NewestIn(log, v, lo, hi) + c <= e.at
  {
    assert (log + [e])[..|log|] == log;
    OrderedSplit(log, e);
    if LastLock(log, v).Some? {
      StandingLockInInterval(log, v, lo, hi);
    }
  }

  lemma GapsFitAfterLock(log: seq<LockEvent>, e: LockEvent, v: Service, c: nat, lo: Time, hi: Time)
    requires LogOrdered(log + [e]) && Spaced(log + [e], v, c) && GapsFit(log, v, c, lo, hi)
    requires LockIn(e, v, lo, hi)
    ensures GapsFit(log + [e], v, c, lo, hi)
  {
    if Locks(log, v, lo, hi) > 0 {
      NextLockIsLater(log, e, v, c, lo, hi);
    }
    FitsAfterLock(c, Locks(log, v, lo, hi), Losses(log, v, lo, hi), Reach(log, v, lo, hi), LastLock(log, v).Some?, e.at - lo);
    LockAppended(log, e, v, lo, hi);
  }

  lemma {:induction false} LocksFit(log: seq<LockEvent>, v: Service, c: nat, lo: Time, hi: Time)
    requires LogOrdered(log) && Spaced(log, v, c)
    requires forall e :: e in log ==> e.at <= hi
    ensures GapsFit(log, v, c, lo, hi)
  {
    if log != [] {
      var before := log[..|log| - 1];
      var e := log[|log| - 1];
      assert log == before + [e];
      LocksFit(before, v, c, lo, hi);
      if LockIn(e, v, lo, hi) {
        GapsFitAfterLock(before, e, v, c, lo, hi);
      } else {
        GapsFitAfterOther(before, e, v, c, lo, hi);
      }
    }
  }

  lemma OtherAppended(log: seq<LockEvent>, e: LockEvent, v: Service, lo: Time, hi: Time)
    requires !LockIn(e, v, lo, hi)
    ensures Locks(log + [e], v, lo, hi) == Locks(log, v, lo, hi)
    ensures Losses(log + [e], v, lo, hi) == Losses(log, v, lo, hi) + if LossIn(e, v, lo, hi) then 1 else 0
    ensures Reach(log + [e], v, lo, hi) == Reach(log, v, lo, hi)
  {
    assert (log + [e])[..|log|] == log;
  }

  /** With a lock in the interval, whoever makes the newest lock disappear or takes a new one is counted. */
  lemma OtherIsNoLock(log: seq<LockEvent>, e: LockEvent, v: Service, lo: Time, hi: Time)
    requires LogOrdered(log + [e]) && !LockIn(e, v, lo, hi) && e.at <= hi && Locks(log, v, lo, hi) > 0
    ensures if LossIn(e, v, lo, hi) then LastLock(log + [e], v).None? else LastLock(log + [e], v) == LastLock(log, v)
  {
    assert (log + [e])[..|log|] == log;
    OrderedSplit(log, e);
    assert lo <= NewestIn(log, v, lo, hi) <= e.at;
  }

  lemma GapsFitAfterOther(log: seq<LockEvent>, e: LockEvent, v: Service, c: nat, lo: Time, hi: Time)
    requires LogOrdered(log + [e]) && GapsFit(log, v, c, lo, hi)
    requires !LockIn(e, v, lo, hi) && e.at <= hi
    ensures GapsFit(log + [e], v, c, lo, hi)
  {
    OtherAppended(log, e, v, lo, hi);
    if Locks(log, v, lo, hi) > 0 {
      OtherIsNoLock(log, e, v, lo, hi);
      FitsAfterLoss(c, Locks(log, v, lo, hi), Losses(log, v, lo, hi), Reach(log, v, lo, hi), LastLock(log, v).Some?);
    }
  }

  /** At most one lock per cooldown, plus one, plus one per destroyed key. */
  lemma LocksBounded(log: seq<LockEvent>, v: Service, c: nat, lo: Time, length: nat)
    requires c > 0 && LogOrdered(log) && Spaced(log, v, c)
    ensures Locks(log, v, lo, lo + length) <= length / c + 1 + Losses(log, v, lo, lo + length)
  {
    LocksBoundedUpTo(log, v, c, lo, lo + length);
  }

  /** Entries after the interval count for nothing, so they can be dropped. */
  lemma {:induction false} LocksBoundedUpTo(log: seq<LockEvent>, v: Service, c: nat, lo: Time, hi: Time)
    requires c > 0 && lo <= hi && LogOrdered(log) && Spaced(log, v, c)
    ensures Locks(log, v, lo, hi) <= (hi - lo) / c + 1 + Losses(log, v, lo, hi)
  {
    QuotientBound(c, 0, hi - lo);
    if log == [] {
    } else if log[|log| - 1].at > hi {
      LocksBoundedUpTo(log[..|log| - 1], v, c, lo, hi);
    } else {
      assert forall e :: e in log ==> e.at <= hi;
      LocksFit(log, v, c, lo, hi);
      var n: int, k: int := Locks(log, v, lo, hi), Losses(log, v, lo, hi);
      if n > 0 {
        CooldownsMultiply(c, n - 1 - k);
        QuotientBound(c, n - 1 - k, hi - lo);
      }
    }
  }

  // ---------------------------------------------------------------- direct sends

  /** The stamp of the newest direct send of `v`. */
  function LastStamp(direct: seq<Direct>, v: Service): Option<Time> {
    if direct == [] then None
    else
      var d := direct[|direct| - 1];
      if d.service == v then Some(d.stamp) else LastStamp(direct[..|direct| - 1], v)
  }

  ghost predicate StampsSpaced(direct: seq<Direct>, v: Service, c: nat) {
    forall i, j :: 0 <= i < j < |direct| && direct[i].service == v && direct[j].service == v ==>
                     direct[i].stamp + c <= direct[j].stamp
  }

  function Sends(direct: seq<Direct>, v: Service, lo: Time, hi: Time): nat {
    if direct == [] then 0
    else
      var d := direct[|direct| - 1];
      Sends(direct[..|direct| - 1], v, lo, hi) + if d.service == v && lo <= d.firedAt <= hi then 1 else 0
  }

  ghost predicate StampsRecent(direct: seq<Direct>, latency: nat) {
    forall i :: 0 <= i < |direct| ==> direct[i].stamp <= direct[i].firedAt <= direct[i].stamp + latency
  }

  lemma {:induction false} LastStampInSends(direct: seq<Direct>, v: Service)
    ensures LastStamp(direct, v).Some? ==>
              exists i :: 0 <= i < |direct| && direct[i].service == v && direct[i].stamp == LastStamp(direct, v).value
    ensures LastStamp(direct, v).None? ==> forall i :: 0 <= i < |direct| ==> direct[i].service != v
  {
    if direct != [] && direct[|direct| - 1].service != v {
      var before := direct[..|direct| - 1];
      LastStampInSends(before, v);
      if LastStamp(before, v).Some? {
        var i :| 0 <= i < |before| && before[i].service == v && before[i].stamp == LastStamp(before, v).value;
        assert direct[i] == before[i];
      } else {
        forall i | 0 <= i < |direct| ensures direct[i].service != v {
          assert i < |before| ==> before[i] == direct[i];
        }
      }
    }
  }

  /** The newest stamp is the largest when stamps are spaced. */
  lemma {:induction false} LastStampIsLargest(direct: seq<Direct>, v: Service, c: nat)
    requires StampsSpaced(direct, v, c)
    ensures forall i :: 0 <= i < |direct| && direct[i].service == v ==>
              LastStamp(direct, v).Some? && direct[i].stamp <= LastStamp(direct, v).value
  {
    if direct != [] && direct[|direct| - 1].service != v {
      var before := direct[..|direct| - 1];
      LastStampIsLargest(before, v, c);
      forall i | 0 <= i < |direct| && direct[i].service == v
        ensures LastStamp(direct, v).Some? && direct[i].stamp <= LastStamp(direct, v).value
      {
        assert before[i] == direct[i];
      }
    }
  }

  /** `d` is a send in the interval late enough to have `n - 1` spaced ones before it. */
  ghost predicate FitsAsNth(d: Direct, n: int, v: Service, c: nat, latency: nat, lo: Time, hi: Time) {
    d.service == v && lo <= d.firedAt <= hi && c * (n - 1) <= d.stamp - (lo - latency)
  }

  /** The spaced stamps of the sends fired in an interval fit between its start, less the latency, and its end. */
  lemma {:induction false} SendsFit(direct: seq<Direct>, v: Service, c: nat, latency: nat, lo: Time, hi: Time) returns (k: nat)
    requires StampsSpaced(direct, v, c) && StampsRecent(direct, latency)
    ensures Sends(direct, v, lo, hi) > 0 ==>
              k < |direct| && FitsAsNth(direct[k], Sends(direct, v, lo, hi), v, c, latency, lo, hi)
  {
    k := 0;
    if direct != [] {
      var last := |direct| - 1;
      var before := direct[..last];
      var d := direct[last];
      k := SendsFit(before, v, c, latency, lo, hi);
      var n: int := Sends(before, v, lo, hi);
      if d.service == v && lo <= d.firedAt <= hi {
        if n > 0 {
          assert direct[k].stamp + c <= d.stamp;
          assert c * n == c * (n - 1) + c;
        }
        k := last;
      }
    }
  }

  lemma SendsBounded(direct: seq<Direct>, v: Service, c: nat, latency: nat, lo: Time, length: nat)
    requires c > 0 && StampsSpaced(direct, v, c) && StampsRecent(direct, latency)
    ensures Sends(direct, v, lo, lo + length) <= (length + latency) / c + 1
  {
    var n: int := Sends(direct, v, lo, lo + length);
    var _ := SendsFit(direct, v, c, latency, lo, lo + length);
    if n > 0 {
      QuotientBound(c, n - 1, length + latency);
    }
  }
}
