/**
 Runs of the counters: any interleaving of saved rows, records of several services (whose transactions may or may not
 reach Redis) and losses of the Redis data. The incremental, trimmed and expiring set is compared with the full history.
 */
module CounterRuns {
  import opened Common
  import opened Counter

  /**
   `Record` is the count of one check: it read the clock at `at`; if `executed`, its transaction ran on the server at
   `wall`, with or without a reply. Its member is its position in the run.
   */
  datatype Op =
    | Save(service: Service, createdAt: Time)
    | Record(row: nat, service: Service, at: Time, wall: Time, executed: bool)
    | Crash

  /** The Redis data after a run. */
  function Store(window: nat, ops: seq<Op>): map<Service, ZSet> {
    if ops == [] then map[]
    else
      var last := |ops| - 1;
      var before := Store(window, ops[..last]);
      match ops[last]
      case Save(_, _) => before
      case Record(_, s, at, wall, executed) => if executed then AfterRecord(window, before, s, last, at, wall) else before
      case Crash => map[]
  }

  /** The members of `s` if keys never expired. */
  function Plain(window: nat, ops: seq<Op>, s: Service): map<Member, Time> {
    if ops == [] then map[]
    else
      var last := |ops| - 1;
      var before := Plain(window, ops[..last], s);
      match ops[last]
      case Save(_, _) => before
      case Record(_, v, at, _, executed) => if executed && v == s then Recorded(window, before, last, at) else before
      case Crash => map[]
  }

  predicate IsRecord(ops: seq<Op>, s: Service, i: int) {
    0 <= i < |ops| && ops[i].Record? && ops[i].service == s
  }

  predicate IsExecuted(ops: seq<Op>, s: Service, i: int) {
    IsRecord(ops, s, i) && ops[i].executed
  }

  /** Record `i` reached Redis, and neither a loss nor a trim has taken its member. */
  ghost predicate Survives(window: nat, ops: seq<Op>, s: Service, i: nat) {
    && IsExecuted(ops, s, i)
    && (forall j :: i <= j < |ops| ==> !ops[j].Crash?)
    && (forall j :: i <= j && IsExecuted(ops, s, j) ==> ops[i].at > ops[j].at - window)
  }

  /**
   Exact contents, for any order of clock readings: without key expiry, the set holds record `i` exactly when it reached
   Redis, no loss followed, and its time is newer than a window before every time recorded from it on.
   */
  lemma {:induction false} ExactContents(window: nat, ops: seq<Op>, s: Service, i: nat)
    requires window > 0
    ensures i in Plain(window, ops, s) <==> Survives(window, ops, s, i)
    ensures i in Plain(window, ops, s) ==> Plain(window, ops, s)[i] == ops[i].at
  {
    if ops != [] {
      var last := |ops| - 1;
      var before := ops[..last];
      ExactContents(window, before, s, i);
      assert forall j: nat :: j < last ==> before[j] == ops[j];
      assert forall j: nat :: j < last ==> (IsExecuted(before, s, j) <==> IsExecuted(ops, s, j));
      if i < last {
        if Survives(window, ops, s, i) {
          assert Survives(window, before, s, i);
        } else if Survives(window, before, s, i) && !ops[last].Crash? {
          assert IsExecuted(ops, s, last) && !(ops[i].at > ops[last].at - window);
        }
      }
    }
  }

  // ---------------------------------------------------------------- expiry

  /** Transactions of `s` execute after their clock reading, and the server clock does not go back between them. */
  ghost predicate ServerOrder(ops: seq<Op>, s: Service) {
    && (forall i :: IsExecuted(ops, s, i) ==> ops[i].at <= ops[i].wall)
    && (forall i, j :: i < j && IsExecuted(ops, s, i) && IsExecuted(ops, s, j) ==> ops[i].wall <= ops[j].wall)
  }

  /** The last operation is a record of `s` that reached Redis, within `delay` of its clock reading. */
  ghost predicate EndsInRecord(ops: seq<Op>, s: Service, delay: nat) {
    ops != [] && IsExecuted(ops, s, |ops| - 1) && ops[|ops| - 1].wall <= ops[|ops| - 1].at + delay
  }

  ghost predicate SubMap(a: map<Member, Time>, b: map<Member, Time>) {
    forall m :: m in a ==> m in b && a[m] == b[m]
  }

  /** What expiry has taken from `all` was two windows old at the time `w` of the last transaction. */
  ghost predicate Outlived(window: nat, all: map<Member, Time>, left: map<Member, Time>, w: Time) {
    && SubMap(left, all)
    && (forall m :: m in all ==> all[m] <= w)
    && (forall m :: m in all && m !in left ==> all[m] + 2 * window <= w)
  }

  /** The stored set differs from the one that never expires only by members that expiry has taken. */
  ghost predicate Agrees(window: nat, ops: seq<Op>, s: Service) {
    var sets, plain := Store(window, ops), Plain(window, ops, s);
    if s in sets then
      exists k :: && IsExecuted(ops, s, k) && sets[s].expiresAt == Some(ops[k].wall + 2 * window)
                  && Outlived(window, plain, sets[s].members, ops[k].wall)
    else plain == map[]
  }

  /** One transaction at `wall`, whether the key is still there or has just expired. */
  lemma RecordOutlives(window: nat, all: map<Member, Time>, left: map<Member, Time>, seen: map<Member, Time>, w: Time,
                       m: Member, at: Time, wall: Time)
    requires Outlived(window, all, left, w) && w <= wall && at <= wall
    requires seen == left || (seen == map[] && w + 2 * window <= wall)
    ensures Outlived(window, Recorded(window, all, m, at), Recorded(window, seen, m, at), wall)
  {
  }

  lemma RecordAgrees(window: nat, ops: seq<Op>, s: Service)
    requires ServerOrder(ops, s)
    requires ops != [] && IsExecuted(ops, s, |ops| - 1) && Agrees(window, ops[..|ops| - 1], s)
    ensures Agrees(window, ops, s)
    ensures var last := |ops| - 1;
      Outlived(window, Plain(window, ops, s),
               Recorded(window, Visible(Store(window, ops[..last]), s, ops[last].wall), last, ops[last].at), ops[last].wall)
  {
    var last := |ops| - 1;
    var before, op := ops[..last], ops[last];
    var sets, plain := Store(window, before), Plain(window, before, s);
    if s in sets {
      var k :| && IsExecuted(before, s, k) && sets[s].expiresAt == Some(before[k].wall + 2 * window)
               && Outlived(window, plain, sets[s].members, before[k].wall);
      assert IsExecuted(ops, s, k) && ops[k] == before[k];
      RecordOutlives(window, plain, sets[s].members, Visible(sets, s, op.wall), ops[k].wall, last, op.at, op.wall);
    } else {
      RecordOutlives(window, plain, map[], Visible(sets, s, op.wall), op.at, last, op.at, op.wall);
    }
    assert IsExecuted(ops, s, last);
  }

  lemma PrefixOrder(ops: seq<Op>, s: Service, n: nat)
    requires ServerOrder(ops, s) && n <= |ops|
    ensures ServerOrder(ops[..n], s)
  {
    assert forall i :: IsExecuted(ops[..n], s, i) ==> IsExecuted(ops, s, i) && ops[..n][i] == ops[i];
  }

  lemma {:induction false} StoreAgrees(window: nat, ops: seq<Op>, s: Service)
    requires ServerOrder(ops, s)
    ensures Agrees(window, ops, s)
  {
    if ops != [] {
      var last := |ops| - 1;
      var before := ops[..last];
      PrefixOrder(ops, s, last);
      StoreAgrees(window, before, s);
      if IsExecuted(ops, s, last) {
        RecordAgrees(window, ops, s);
      } else if !ops[last].Crash? && s in Store(window, ops) {
        var k :| && IsExecuted(before, s, k) && Store(window, before)[s].expiresAt == Some(before[k].wall + 2 * window)
                 && Outlived(window, Plain(window, before, s), Store(window, before)[s].members, before[k].wall);
        assert IsExecuted(ops, s, k) && ops[k] == before[k];
      }
    }
  }

  /** The count the last record of a run gets from Redis. */
  ghost function CountReturned(window: nat, ops: seq<Op>): nat
    requires ops != [] && ops[|ops| - 1].Record?
  {
    var last := |ops| - 1;
    |Recorded(window, Visible(Store(window, ops[..last]), ops[last].service, ops[last].wall), last, ops[last].at)|
  }

  /** The last count of the run cannot tell that keys expire. */
  ghost predicate ExpiryUnseen(window: nat, ops: seq<Op>, s: Service)
    requires ops != [] && IsExecuted(ops, s, |ops| - 1)
  {
    CountReturned(window, ops) == |Plain(window, ops, s)|
  }

  /**
   A transaction within one window of its own clock reading counts as if keys never expired, however late the others were:
   whatever expiry has taken from it, the trim would have taken as well.
   */
  lemma PromptRecordHidesExpiry(window: nat, ops: seq<Op>, s: Service)
    requires window > 0 && ServerOrder(ops, s) && EndsInRecord(ops, s, window)
    ensures ExpiryUnseen(window, ops, s)
  {
    var last := |ops| - 1;
    PrefixOrder(ops, s, last);
    StoreAgrees(window, ops[..last], s);
    RecordAgrees(window, ops, s);
    var counted := Recorded(window, Visible(Store(window, ops[..last]), s, ops[last].wall), last, ops[last].at);
    forall m | m in Plain(window, ops, s) ensures m in counted {
      assert Plain(window, ops, s)[m] > ops[last].at - window;
    }
    assert counted == Plain(window, ops, s);
  }

  /** Two records of one service, the second executed two windows after the first with a clock reading one window old. */
  function LateRun(window: nat): seq<Op>
    requires window > 0
  {
    [Record(0, "svc", 0, 0, true), Record(1, "svc", window - 1, 2 * window, true)]
  }

  lemma LateRunShowsExpiry(window: nat)
    requires window > 0
    ensures ServerOrder(LateRun(window), "svc") && EndsInRecord(LateRun(window), "svc", window + 1)
    ensures CountReturned(window, LateRun(window)) == 1 && |Plain(window, LateRun(window), "svc")| == 2
    ensures !ExpiryUnseen(window, LateRun(window), "svc")
  {
    var ops := LateRun(window);
    assert ops[..1] == [ops[0]] && ops[..1][..0] == [] && ops[..2] == ops;
    assert Plain(window, ops[..1], "svc") == map[0 := 0];
    assert Plain(window, ops, "svc") == map[0 := 0, 1 := window - 1];
    assert |Plain(window, ops, "svc")| == |Plain(window, ops, "svc").Keys|;
    assert Plain(window, ops, "svc").Keys == {0, 1};
    assert Store(window, ops[..1])["svc"].expiresAt == Some(2 * window);
    assert Recorded(window, map[], 1, window - 1) == map[1 := window - 1];
  }

  /**
   The expiry of two windows is safe for a count exactly when its own transaction runs within one window of its clock
   reading; nothing is asked of the others but the order of the server.
   */
  lemma ExpiryUnseenExactly(window: nat, delay: nat)
    requires window > 0
    ensures (forall ops: seq<Op>, s: Service :: ServerOrder(ops, s) && EndsInRecord(ops, s, delay) ==> ExpiryUnseen(window, ops, s))
            <==> delay <= window
  {
    if delay <= window {
      forall ops: seq<Op>, s: Service | ServerOrder(ops, s) && EndsInRecord(ops, s, delay) ensures ExpiryUnseen(window, ops, s) {
        PromptRecordHidesExpiry(window, ops, s);
      }
    } else {
      LateRunShowsExpiry(window);
      assert EndsInRecord(LateRun(window), "svc", delay);
    }
  }

  // ---------------------------------------------------------------- the window over the full history

  /** Records of `s`, whether they reached Redis or not, with a time in the window that ends at `at`. */
  ghost function InWindow(ops: seq<Op>, s: Service, window: int, at: Time): set<nat> {
    set i: nat | i < |ops| && IsRecord(ops, s, i) && ops[i].at > at - window
  }

  /** The survivors are records within the window of the newest record, in any clock order. */
  lemma SurvivorsInWindow(window: nat, ops: seq<Op>, s: Service)
    requires window > 0 && ops != [] && IsExecuted(ops, s, |ops| - 1)
    ensures Plain(window, ops, s).Keys <= InWindow(ops, s, window, ops[|ops| - 1].at)
  {
    forall i | i in Plain(window, ops, s) ensures i in InWindow(ops, s, window, ops[|ops| - 1].at) {
      ExactContents(window, ops, s, i);
    }
  }

  /** Expiry can only take members away. */
  lemma {:induction false} StoreWithinPlain(window: nat, ops: seq<Op>, s: Service)
    ensures s in Store(window, ops) ==> SubMap(Store(window, ops)[s].members, Plain(window, ops, s))
  {
    if ops != [] {
      StoreWithinPlain(window, ops[..|ops| - 1], s);
    }
  }

  /** Redis never over-counts: not with a clock going back, not after losses, not with transactions whose reply was lost. */
  lemma NeverOverCounts(window: nat, ops: seq<Op>, s: Service)
    requires window > 0 && ops != [] && IsExecuted(ops, s, |ops| - 1)
    ensures CountReturned(window, ops) <= |InWindow(ops, s, window, ops[|ops| - 1].at)|
  {
    var last := |ops| - 1;
    var before := ops[..last];
    StoreWithinPlain(window, before, s);
    var counted := Recorded(window, Visible(Store(window, before), s, ops[last].wall), last, ops[last].at);
    assert SubMap(counted, Plain(window, ops, s));
    SurvivorsInWindow(window, ops, s);
    assert counted.Keys <= InWindow(ops, s, window, ops[last].at);
    SubsetSize(counted.Keys, InWindow(ops, s, window, ops[last].at));
  }

  /** The records whose members are still there. */
  ghost function Survivors(window: nat, ops: seq<Op>, s: Service): set<nat> {
    set i: nat | i < |ops| && Survives(window, ops, s, i)
  }

  /** Exact count, for any order of clock readings and through outages, losses and late transactions of others. */
  lemma CountIsSurvivors(window: nat, ops: seq<Op>, s: Service)
    requires window > 0 && ServerOrder(ops, s) && EndsInRecord(ops, s, window)
    ensures CountReturned(window, ops) == |Survivors(window, ops, s)|
  {
    PromptRecordHidesExpiry(window, ops, s);
    forall i ensures i in Plain(window, ops, s).Keys <==> i in Survivors(window, ops, s) {
      ExactContents(window, ops, s, i);
    }
    assert Plain(window, ops, s).Keys == Survivors(window, ops, s);
  }

  /** Records of the window that reached Redis and have not been lost since. */
  ghost function Kept(ops: seq<Op>, s: Service, window: int, at: Time): set<nat> {
    set i | i in InWindow(ops, s, window, at) && IsKept(ops, i)
  }

  ghost predicate IsKept(ops: seq<Op>, i: nat) {
    i < |ops| && ops[i].Record? && ops[i].executed && forall j :: i <= j < |ops| ==> !ops[j].Crash?
  }

  /** No clock reading of `s` that Redis has kept is ahead of the last one by more than `skew`. */
  ghost predicate AheadAtMost(ops: seq<Op>, s: Service, skew: nat)
    requires ops != [] && ops[|ops| - 1].Record?
  {
    forall j :: IsExecuted(ops, s, j) && IsKept(ops, j) ==> ops[j].at <= ops[|ops| - 1].at + skew
  }

  /** With readings up to `skew` ahead, Redis counts at least what it kept of the window shortened by it, and no more than the whole. */
  lemma SkewedCount(window: nat, ops: seq<Op>, s: Service, skew: nat)
    requires window > 0 && ServerOrder(ops, s) && EndsInRecord(ops, s, window) && AheadAtMost(ops, s, skew)
    ensures |Kept(ops, s, window as int - skew, ops[|ops| - 1].at)| <= CountReturned(window, ops)
    ensures CountReturned(window, ops) <= |Kept(ops, s, window, ops[|ops| - 1].at)|
  {
    var at, survivors := ops[|ops| - 1].at, Survivors(window, ops, s);
    CountIsSurvivors(window, ops, s);
    forall i | i in Kept(ops, s, window as int - skew, at) ensures i in survivors {
      forall j | i <= j && IsExecuted(ops, s, j) ensures ops[i].at > ops[j].at - window {
        assert ops[j].at <= at + skew;
      }
    }
    SubsetSize(Kept(ops, s, window as int - skew, at), survivors);
    forall i | i in survivors ensures i in Kept(ops, s, window, at) {
      assert IsExecuted(ops, s, |ops| - 1);
    }
    SubsetSize(survivors, Kept(ops, s, window, at));
  }

  /**
   The window over the full history, through outages and losses. When the last clock reading is the latest, the count is
   exactly the number of checks in (at - window, at] that reached Redis and have not been lost since; so a burst is missed
   in Redis exactly when the kept checks of the window are no more than the threshold.
   */
  lemma CountIsKept(window: nat, ops: seq<Op>, s: Service)
    requires window > 0 && ServerOrder(ops, s) && EndsInRecord(ops, s, window) && AheadAtMost(ops, s, 0)
    ensures CountReturned(window, ops) == |Kept(ops, s, window, ops[|ops| - 1].at)|
    ensures forall i :: i in Kept(ops, s, window, ops[|ops| - 1].at) ==> ops[i].at <= ops[|ops| - 1].at
  {
    SkewedCount(window, ops, s, 0);
  }

  /** Everything about `s` since `since` has gone through Redis, and Redis has kept its data. */
  ghost predicate ThroughRedisSince(ops: seq<Op>, s: Service, since: int) {
    forall i :: 0 <= i < |ops| && IsRecord(ops, s, i) && ops[i].at > since ==> IsKept(ops, i)
  }

  /** Self-healing: as soon as every check of the last window has gone through Redis without a loss, the count is exact. */
  lemma ExactCount(window: nat, ops: seq<Op>, s: Service)
    requires window > 0 && ServerOrder(ops, s) && EndsInRecord(ops, s, window) && AheadAtMost(ops, s, 0)
    requires ThroughRedisSince(ops, s, ops[|ops| - 1].at - window)
    ensures CountReturned(window, ops) == |InWindow(ops, s, window, ops[|ops| - 1].at)|
    ensures forall i :: i in InWindow(ops, s, window, ops[|ops| - 1].at) ==> ops[i].at <= ops[|ops| - 1].at
  {
    var at := ops[|ops| - 1].at;
    CountIsKept(window, ops, s);
    assert Kept(ops, s, window, at) == InWindow(ops, s, window, at);
  }

  // ---------------------------------------------------------------- records and rows

  predicate Checks(ops: seq<Op>, i: int) {
    0 <= i < |ops| && ops[i].Record?
  }

  /** Every check belongs to a row of its service that was saved before it, and no row is checked twice. */
  ghost predicate ChecksFollowRows(ops: seq<Op>) {
    && (forall i :: Checks(ops, i) ==>
          ops[i].row < i && ops[ops[i].row].Save? && ops[ops[i].row].service == ops[i].service)
    && (forall i, j :: i < j && Checks(ops, i) && Checks(ops, j) ==> ops[i].row != ops[j].row)
  }

  /** The rows behind some records. */
  ghost function RowsOf(ops: seq<Op>, records: set<nat>): set<nat>
    requires forall i :: i in records ==> Checks(ops, i)
  {
    set i | i in records && Checks(ops, i) :: ops[i].row
  }

  lemma {:induction false} AsManyRows(ops: seq<Op>, records: set<nat>)
    requires ChecksFollowRows(ops) && forall i :: i in records ==> Checks(ops, i)
    ensures |RowsOf(ops, records)| == |records|
    decreases records
  {
    if records != {} {
      var i :| i in records;
      AsManyRows(ops, records - {i});
      RowsWithout(ops, records, i);
    }
  }

  lemma RowsWithout(ops: seq<Op>, records: set<nat>, i: nat)
    requires ChecksFollowRows(ops) && forall j :: j in records ==> Checks(ops, j)
    requires i in records
    ensures RowsOf(ops, records) == RowsOf(ops, records - {i}) + {ops[i].row}
    ensures ops[i].row !in RowsOf(ops, records - {i})
  {
    assert Checks(ops, i);
    forall p ensures p in RowsOf(ops, records) <==> p in RowsOf(ops, records - {i}) || p == ops[i].row {
      if p in RowsOf(ops, records) {
        var j :| j in records && Checks(ops, j) && ops[j].row == p;
        assert j != i ==> j in records - {i};
      }
    }
  }

  /** The saved rows of `s` that the counting query at `at` finds. */
  ghost function SavedInWindow(ops: seq<Op>, s: Service, window: nat, at: Time): set<nat> {
    set p: nat | p < |ops| && ops[p].Save? && ops[p].service == s && ops[p].createdAt > at - window
  }

  function Rows(ops: seq<Op>): seq<ErrorRow> {
    if ops == [] then []
    else
      var last := |ops| - 1;
      if ops[last].Save? then Rows(ops[..last]) + [ErrorRow(ops[last].service, ops[last].createdAt)] else Rows(ops[..last])
  }

  /** The query over the table of a run counts the rows saved in it. */
  lemma {:induction false} QueryCountsSaved(ops: seq<Op>, s: Service, window: nat, at: Time)
    ensures |RowsInWindow(Rows(ops), s, window, at)| == |SavedInWindow(ops, s, window, at)|
  {
    if ops != [] {
      var last := |ops| - 1;
      QueryCountsSaved(ops[..last], s, window, at);
      SavedSoFar(ops, s, window, at);
      if ops[last].Save? {
        QueryFindsNewRow(Rows(ops[..last]), ErrorRow(ops[last].service, ops[last].createdAt), s, window, at);
      }
    }
  }

  lemma SavedSoFar(ops: seq<Op>, s: Service, window: nat, at: Time)
    requires ops != []
    ensures var last := |ops| - 1;
      var hit := ops[last].Save? && ops[last].service == s && ops[last].createdAt > at - window;
      |SavedInWindow(ops, s, window, at)| == |SavedInWindow(ops[..last], s, window, at)| + if hit then 1 else 0
  {
    var last := |ops| - 1;
    var hit := ops[last].Save? && ops[last].service == s && ops[last].createdAt > at - window;
    assert SavedInWindow(ops, s, window, at) == SavedInWindow(ops[..last], s, window, at) + if hit then {last} else {};
  }

  /** No over-count against the rows: the checked rows behind a Redis count are distinct saved rows of the service. */
  lemma CountedRowsAreSaved(window: nat, ops: seq<Op>, s: Service)
    requires window > 0 && ops != [] && IsExecuted(ops, s, |ops| - 1) && ChecksFollowRows(ops)
    ensures var inWindow := InWindow(ops, s, window, ops[|ops| - 1].at);
      && CountReturned(window, ops) <= |RowsOf(ops, inWindow)|
      && forall p :: p in RowsOf(ops, inWindow) ==> p < |ops| && ops[p].Save? && ops[p].service == s
  {
    NeverOverCounts(window, ops, s);
    AsManyRows(ops, InWindow(ops, s, window, ops[|ops| - 1].at));
  }

  // ---------------------------------------------------------------- Redis against the database

  /** The stored time of a row and the time its check read differ by at most `drift`. */
  ghost predicate DriftAtMost(ops: seq<Op>, s: Service, drift: nat)
    requires ChecksFollowRows(ops)
  {
    forall i :: IsRecord(ops, s, i) && Checks(ops, i) ==>
      ops[i].at <= ops[ops[i].row].createdAt + drift && ops[ops[i].row].createdAt <= ops[i].at + drift
  }

  /** Records whose time is within `drift` of the cutoff. */
  ghost function NearCutoff(ops: seq<Op>, s: Service, cutoff: int, drift: nat): set<nat> {
    set i: nat | i < |ops| && IsRecord(ops, s, i) && cutoff - drift < ops[i].at <= cutoff + drift
  }

  ghost predicate RowChecked(ops: seq<Op>, p: nat) {
    exists i :: Checks(ops, i) && ops[i].row == p
  }

  /** Rows in the database window whose check has not recorded yet. */
  ghost function InFlight(ops: seq<Op>, s: Service, window: nat, at: Time): set<nat> {
    set p | p in SavedInWindow(ops, s, window, at) && !RowChecked(ops, p)
  }

  lemma DbWithinRedis(ops: seq<Op>, s: Service, window: nat, at: Time, drift: nat)
    requires ChecksFollowRows(ops) && DriftAtMost(ops, s, drift)
    ensures |SavedInWindow(ops, s, window, at)|
            <= |InWindow(ops, s, window, at)| + |NearCutoff(ops, s, at - window, drift)| + |InFlight(ops, s, window, at)|
  {
    var inWindow, near := InWindow(ops, s, window, at), NearCutoff(ops, s, at - window, drift);
    var saved, flying := SavedInWindow(ops, s, window, at), InFlight(ops, s, window, at);
    forall p | p in saved ensures p in RowsOf(ops, inWindow) + RowsOf(ops, near) + flying {
      if RowChecked(ops, p) {
        var i :| Checks(ops, i) && ops[i].row == p;
        assert IsRecord(ops, s, i);
        assert i in inWindow || i in near;
      }
    }
    AsManyRows(ops, inWindow);
    AsManyRows(ops, near);
    SubsetSize(saved, RowsOf(ops, inWindow) + RowsOf(ops, near) + flying);
  }

  lemma RedisWithinDb(ops: seq<Op>, s: Service, window: nat, at: Time, drift: nat)
    requires ChecksFollowRows(ops) && DriftAtMost(ops, s, drift)
    ensures |InWindow(ops, s, window, at)| <= |SavedInWindow(ops, s, window, at)| + |NearCutoff(ops, s, at - window, drift)|
  {
    var inWindow, near := InWindow(ops, s, window, at), NearCutoff(ops, s, at - window, drift);
    AsManyRows(ops, inWindow - near);
    forall p | p in RowsOf(ops, inWindow - near) ensures p in SavedInWindow(ops, s, window, at) {
      var i :| i in inWindow - near && ops[i].row == p;
    }
    SubsetSize(RowsOf(ops, inWindow - near), SavedInWindow(ops, s, window, at));
    SubsetSize(inWindow, (inWindow - near) + near);
  }

  /** The answer of the database at the end of a run. */
  ghost function DbCount(ops: seq<Op>, s: Service, window: nat, at: Time): nat {
    |RowsInWindow(Rows(ops), s, window, at)|
  }

  /** Records in the window that Redis no longer holds: they never reached it, were lost, or fell to a clock ahead of its time. */
  ghost function Missing(window: nat, ops: seq<Op>, s: Service, at: Time): set<nat> {
    InWindow(ops, s, window, at) - Survivors(window, ops, s)
  }

  /** How far the answers `redis` and `db` at time `at` may lie apart. */
  ghost predicate AnswersClose(ops: seq<Op>, s: Service, window: nat, at: Time, drift: nat, redis: nat, db: nat) {
    var near, flying := |NearCutoff(ops, s, at - window, drift)|, |InFlight(ops, s, window, at)|;
    var missing := |Missing(window, ops, s, at)|;
    && redis <= db + near
    && db <= redis + near + flying + missing
    && (drift == 0 ==> near == 0)
    && (drift == 0 && flying == 0 ==> redis + missing == db)
  }

  lemma RecordsAgainstRows(ops: seq<Op>, s: Service, window: nat, at: Time, drift: nat, held: nat)
    requires ChecksFollowRows(ops) && DriftAtMost(ops, s, drift)
    requires |InWindow(ops, s, window, at)| == held + |Missing(window, ops, s, at)|
    ensures AnswersClose(ops, s, window, at, drift, held, |SavedInWindow(ops, s, window, at)|)
  {
    DbWithinRedis(ops, s, window, at, drift);
    RedisWithinDb(ops, s, window, at, drift);
    if drift == 0 {
      assert NearCutoff(ops, s, at - window, drift) == {};
    }
  }

  /** Survivors and missing records make up the window. */
  lemma WindowSplits(window: nat, ops: seq<Op>, s: Service)
    requires window > 0 && ops != [] && IsExecuted(ops, s, |ops| - 1)
    ensures |InWindow(ops, s, window, ops[|ops| - 1].at)|
            == |Survivors(window, ops, s)| + |Missing(window, ops, s, ops[|ops| - 1].at)|
  {
    var inWindow, survivors := InWindow(ops, s, window, ops[|ops| - 1].at), Survivors(window, ops, s);
    assert survivors <= inWindow;
    DisjointSize(survivors, inWindow - survivors);
    assert survivors + (inWindow - survivors) == inWindow;
  }

  /**
   The two counters agree up to a bound. Asked at the same time, their answers differ by at most the records within the
   drift of the cutoff, plus, on the database side, the rows whose check has not recorded yet and the records that Redis
   does not hold. Without drift and with nothing in flight the missing records are the whole difference, the excluded
   boundary included.
   */
  lemma CountersAgree(window: nat, ops: seq<Op>, s: Service, drift: nat)
    requires window > 0 && ServerOrder(ops, s) && EndsInRecord(ops, s, window)
    requires ChecksFollowRows(ops) && DriftAtMost(ops, s, drift)
    ensures AnswersClose(ops, s, window, ops[|ops| - 1].at, drift, CountReturned(window, ops), DbCount(ops, s, window, ops[|ops| - 1].at))
  {
    var at := ops[|ops| - 1].at;
    CountIsSurvivors(window, ops, s);
    WindowSplits(window, ops, s);
    QueryCountsSaved(ops, s, window, at);
    RecordsAgainstRows(ops, s, window, at, drift, CountReturned(window, ops));
  }

  // ---------------------------------------------------------------- bursts

  /** The checks `burst` lie in an interval as long as the window that leaves out one of its ends. */
  ghost predicate BurstWithin(ops: seq<Op>, s: Service, burst: set<nat>, start: int, window: nat) {
    && (forall i :: i in burst ==> IsRecord(ops, s, i))
    && ((forall i :: i in burst && IsRecord(ops, s, i) ==> start <= ops[i].at < start + window)
        || (forall i :: i in burst && IsRecord(ops, s, i) ==> start < ops[i].at <= start + window))
  }

  /**
   No missed burst. Any `threshold + 1` checks of a service inside an interval of the window's length that leaves out one of
   its ends, wherever it lies, take the count of the last of them over the threshold, if Redis has kept them.
   */
  lemma NoMissedBurst(window: nat, ops: seq<Op>, s: Service, threshold: nat, burst: set<nat>, start: int)
    requires window > 0 && ServerOrder(ops, s) && EndsInRecord(ops, s, window) && AheadAtMost(ops, s, 0)
    requires |burst| == threshold + 1 && |ops| - 1 in burst
    requires BurstWithin(ops, s, burst, start, window) && forall i :: i in burst ==> IsKept(ops, i)
    ensures CountReturned(window, ops) > threshold
  {
    CountIsKept(window, ops, s);
    assert burst <= Kept(ops, s, window, ops[|ops| - 1].at);
    SubsetSize(burst, Kept(ops, s, window, ops[|ops| - 1].at));
  }

  /**
   During an outage the database sees the burst: `threshold + 1` saved rows within the window, in flight or not, take its
   count over the threshold, whatever Redis did or lost.
   */
  lemma NoMissedBurstInDb(window: nat, ops: seq<Op>, s: Service, at: Time, threshold: nat, burst: set<nat>)
    requires burst <= SavedInWindow(ops, s, window, at) && |burst| == threshold + 1
    ensures DbCount(ops, s, window, at) > threshold
  {
    QueryCountsSaved(ops, s, window, at);
    SubsetSize(burst, SavedInWindow(ops, s, window, at));
  }
}
