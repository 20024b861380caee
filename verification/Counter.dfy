/** The sliding-window counter in Redis, the counting query it is swapped for, and the selector between them. */
module Counter {
  import opened Common

  type Member = nat  // stands for the unique part of a set member

  /** A sorted set with the time its key expires, if it has one. */
  datatype ZSet = ZSet(members: map<Member, Time>, expiresAt: Option<Time>)

  predicate Present(sets: map<Service, ZSet>, s: Service, wall: Time) {
    s in sets && (sets[s].expiresAt.Some? ==> wall < sets[s].expiresAt.value)
  }

  /** What a command on the key of `s` finds at server time `wall`. */
  function Visible(sets: map<Service, ZSet>, s: Service, wall: Time): map<Member, Time> {
    if Present(sets, s, wall) then sets[s].members else map[]
  }

  /** ZREMRANGEBYSCORE 0 `cutoff`: both ends are removed. */
  function Trimmed(members: map<Member, Time>, cutoff: int): map<Member, Time> {
    map m | m in members && !(0 <= members[m] <= cutoff) :: members[m]
  }

  /** The members after recording `m` at `at`: added first, then everything at or before the cutoff goes. */
  function Recorded(window: nat, members: map<Member, Time>, m: Member, at: Time): map<Member, Time> {
    Trimmed(members[m := at], at - window)
  }

  /** The whole transaction. */
  function AfterRecord(window: nat, sets: map<Service, ZSet>, s: Service, m: Member, at: Time, wall: Time): map<Service, ZSet> {
    sets[s := ZSet(Recorded(window, Visible(sets, s, wall), m, at), Some(wall + 2 * window))]
  }

  /** The sorted-set commands of one Redis server. */
  class RedisServer {
    var sets: map<Service, ZSet>

    constructor ()
      ensures sets == map[]
    {
      sets := map[];
    }

    method ZAdd(s: Service, score: Time, m: Member, wall: Time)
      modifies this
      ensures Visible(sets, s, wall) == Visible(old(sets), s, wall)[m := score]
      ensures Present(sets, s, wall) && sets == old(sets)[s := sets[s]]
    {
      var members := Visible(sets, s, wall);
      var expiresAt := if Present(sets, s, wall) then sets[s].expiresAt else None;
      sets := sets[s := ZSet(members[m := score], expiresAt)];
    }

    method ZRemRangeByScore(s: Service, cutoff: int, wall: Time)
      requires Present(sets, s, wall)
      modifies this
      ensures sets == old(sets)[s := ZSet(Trimmed(old(sets)[s].members, cutoff), old(sets)[s].expiresAt)]
    {
      sets := sets[s := sets[s].(members := Trimmed(sets[s].members, cutoff))];
    }

    method ZCard(s: Service, wall: Time) returns (n: nat)
      ensures n == |Visible(sets, s, wall)|
    {
      n := |Visible(sets, s, wall)|;
    }

    method PExpire(s: Service, ms: nat, wall: Time)
      requires Present(sets, s, wall)
      modifies this
      ensures sets == old(sets)[s := ZSet(old(sets)[s].members, Some(wall + ms))]
    {
      sets := sets[s := sets[s].(expiresAt := Some(wall + ms))];
    }
  }

  class RedisSlidingWindowCounter {
    const window: nat
    const redis: RedisServer

    constructor (window: nat, redis: RedisServer)
      ensures this.window == window && this.redis == redis
    {
      this.window, this.redis := window, redis;
    }

    /**
     The transaction executes on the server or not, and its reply arrives or not; only a reply gives a count. The count is
     the third reply, taken after the trim.
     */
    method Record(s: Service, at: Time, m: Member, wall: Time, executes: bool, replies: bool) returns (count: Option<nat>)
      requires window > 0
      modifies redis
      ensures redis.sets == if executes then AfterRecord(window, old(redis.sets), s, m, at, wall) else old(redis.sets)
      ensures count == if executes && replies
                       then Some(|Recorded(window, Visible(old(redis.sets), s, wall), m, at)|) else None
    {
      if !executes {
        return None;
      }
      redis.ZAdd(s, at, m, wall);
      redis.ZRemRangeByScore(s, at - window, wall);
      var n := redis.ZCard(s, wall);
      redis.PExpire(s, 2 * window, wall);
      count := if replies then Some(n) else None;
    }
  }

  // ---------------------------------------------------------------- the database

  datatype ErrorRow = ErrorRow(service: Service, createdAt: Time)

  /** The rows the counting query is after: strictly newer than a window before `at`. */
  ghost function RowsInWindow(rows: seq<ErrorRow>, s: Service, window: nat, at: Time): set<nat> {
    set p: nat | p < |rows| && rows[p].service == s && rows[p].createdAt > at - window
  }

  /** COUNT(*) with the two conditions of the query. */
  function CountWhere(rows: seq<ErrorRow>, s: Service, after: int): nat {
    if rows == [] then 0
    else
      var r := rows[|rows| - 1];
      CountWhere(rows[..|rows| - 1], s, after) + if r.service == s && r.createdAt > after then 1 else 0
  }

  lemma QueryFindsNewRow(rows: seq<ErrorRow>, r: ErrorRow, s: Service, window: nat, at: Time)
    ensures |RowsInWindow(rows + [r], s, window, at)|
            == |RowsInWindow(rows, s, window, at)| + if r.service == s && r.createdAt > at - window then 1 else 0
  {
    var hit := r.service == s && r.createdAt > at - window;
    assert RowsInWindow(rows + [r], s, window, at) == RowsInWindow(rows, s, window, at) + if hit then {|rows|} else {};
  }

  lemma {:induction false} CountsRowsInWindow(rows: seq<ErrorRow>, s: Service, window: nat, at: Time)
    ensures CountWhere(rows, s, at - window) == |RowsInWindow(rows, s, window, at)|
  {
    if rows == [] {
      assert RowsInWindow(rows, s, window, at) == {};
    } else {
      var last := |rows| - 1;
      CountsRowsInWindow(rows[..last], s, window, at);
      QueryFindsNewRow(rows[..last], rows[last], s, window, at);
      assert rows == rows[..last] + [rows[last]];
    }
  }

  class DbCountCounter {
    const window: nat

    constructor (window: nat)
      ensures this.window == window
    {
      this.window := window;
    }

    /** Only reads: the row of the request is already in the table. */
    method Record(rows: seq<ErrorRow>, s: Service, at: Time) returns (n: nat)
      ensures n == |RowsInWindow(rows, s, window, at)|
    {
      n := CountWhere(rows, s, at - window);
      CountsRowsInWindow(rows, s, window, at);
    }
  }

  /** What Redis does with one transaction. */
  datatype Exchange = Exchange(executes: bool, replies: bool)

  class CounterSelector {
    const redisCounter: RedisSlidingWindowCounter
    const dbCounter: DbCountCounter

    constructor (redisCounter: RedisSlidingWindowCounter, dbCounter: DbCountCounter)
      ensures this.redisCounter == redisCounter && this.dbCounter == dbCounter
    {
      this.redisCounter, this.dbCounter := redisCounter, dbCounter;
    }

    /**
     Redis when the flag is up, and the database when it is down or when Redis gives no reply in this very request; a
     transaction without a reply may still have left its member behind.
     */
    method Record(rows: seq<ErrorRow>, s: Service, at: Time, m: Member, wall: Time, healthy: bool, x: Exchange) returns (n: nat)
      requires redisCounter.window > 0
      modifies redisCounter.redis
      ensures redisCounter.redis.sets == if healthy && x.executes
              then AfterRecord(redisCounter.window, old(redisCounter.redis.sets), s, m, at, wall) else old(redisCounter.redis.sets)
      ensures n == if healthy && x.executes && x.replies
              then |Recorded(redisCounter.window, Visible(old(redisCounter.redis.sets), s, wall), m, at)|
              else |RowsInWindow(rows, s, dbCounter.window, at)|
    {
      if !healthy {
        n := dbCounter.Record(rows, s, at);
        return;
      }
      var count := redisCounter.Record(s, at, m, wall, x.executes, x.replies);
      if count.Some? {
        n := count.value;
      } else {
        n := dbCounter.Record(rows, s, at);
      }
    }
  }
}
