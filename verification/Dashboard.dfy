/** The read models: recent alerts merged from two tables, and error counts bucketed per service. */
module Dashboard {
  import opened Common
  import Counter
  import opened Sorting

  // ---------------------------------------------------------------- recent alerts

  datatype AlertItem =
    | Dispatched(id: string, service: string, at: int, count: nat, threshold: nat, windowMs: nat)
    | Failed(id: string, service: string, at: int, attempts: nat, error: string)

  function Min(a: nat, b: nat): nat {
    if a <= b then a else b
  }

  predicate NewerFirst(a: AlertItem, b: AlertItem) {
    a.at >= b.at
  }

  /**
   `q` answers "the `limit` newest rows": newest first, rows of the table, as many as there are up to the limit, and no
   row left out is newer than one kept. Rows of the same time may come in any order and any of them may be cut.
   */
  ghost predicate IsNewest(table: multiset<AlertItem>, limit: nat, q: seq<AlertItem>) {
    && multiset(q) <= table
    && |q| == Min(limit, |table|)
    && (forall i, j :: 0 <= i < j < |q| ==> q[i].at >= q[j].at)
    && forall x, y :: x in table - multiset(q) && y in q ==> x.at <= y.at
  }

  /** Both answers, concatenated, sorted newest first and cut. */
  function RecentAlerts(dispatched: seq<AlertItem>, failed: seq<AlertItem>, limit: nat): seq<AlertItem> {
    var merged := Sort(NewerFirst, dispatched + failed);
    merged[..Min(limit, |merged|)]
  }

  lemma SplitCounts(xs: seq<AlertItem>, k: nat)
    requires k <= |xs|
    ensures multiset(xs) == multiset(xs[..k]) + multiset(xs[k..])
  {
    assert xs == xs[..k] + xs[k..];
  }

  /** Elements newer than position `p` of a sorted sequence all lie before it. */
  lemma NewerLiesBefore(xs: seq<AlertItem>, p: nat, x: AlertItem)
    requires SortedBy(NewerFirst, xs) && p < |xs| && x.at > xs[p].at
    ensures multiset(xs)[x] == multiset(xs[..p])[x]
  {
    SplitCounts(xs, p);
    assert forall i :: p < i < |xs| ==> NewerFirst(xs[p], xs[i]);
    assert x !in xs[p..];
  }

  lemma SubMultisetSize<T>(a: multiset<T>, b: multiset<T>)
    requires a <= b
    ensures |a| <= |b|
    ensures |a| == |b| ==> a == b
  {
    assert b == a + (b - a);
    if |a| == |b| {
      assert |b - a| == 0;
    }
  }

  /** A row cut by one table's query cannot be newer than a row of the merged answer. */
  lemma CutRowIsOld(table: multiset<AlertItem>, other: seq<AlertItem>, q: seq<AlertItem>, limit: nat, merged: seq<AlertItem>, x: AlertItem, p: nat)
    requires IsNewest(table, limit, q) && SortedBy(NewerFirst, merged)
    requires multiset(merged) == multiset(q) + multiset(other)
    requires x in table - multiset(q) && p < limit && p < |merged|
    ensures x.at <= merged[p].at
  {
    if x.at > merged[p].at {
      assert |q| == limit by {
        if |q| == |table| {
          SubMultisetSize(multiset(q), table);
        }
      }
      assert multiset(q) <= multiset(merged[..p]) by {
        forall d | d in multiset(q) ensures multiset(q)[d] <= multiset(merged[..p])[d] {
          assert x.at <= d.at;
          NewerLiesBefore(merged, p, d);
        }
      }
      SubMultisetSize(multiset(q), multiset(merged[..p]));
    }
  }

  /**
   Truncate then merge is the true top of the union: whatever ties the two queries broke, the answer is one the database
   could have given for the newest rows of both tables together.
   */
  lemma MergedTopIsTop(alerts: multiset<AlertItem>, failures: multiset<AlertItem>, dispatched: seq<AlertItem>, failed: seq<AlertItem>, limit: nat)
    requires IsNewest(alerts, limit, dispatched) && IsNewest(failures, limit, failed)
    ensures IsNewest(alerts + failures, limit, RecentAlerts(dispatched, failed, limit))
  {
    var merged := Sort(NewerFirst, dispatched + failed);
    var k := Min(limit, |merged|);
    SortSorts(NewerFirst, dispatched + failed);
    assert multiset(merged) == multiset(dispatched) + multiset(failed);
    MergedSize(alerts, failures, dispatched, failed, limit, merged);
    forall x, y | x in alerts + failures - multiset(merged[..k]) && y in merged[..k] ensures x.at <= y.at {
      var p :| 0 <= p < k && merged[p] == y;
      LeftOutIsOld(alerts, failures, dispatched, failed, limit, merged, x, p);
    }
  }

  lemma MergedSize(alerts: multiset<AlertItem>, failures: multiset<AlertItem>, dispatched: seq<AlertItem>, failed: seq<AlertItem>,
                   limit: nat, merged: seq<AlertItem>)
    requires IsNewest(alerts, limit, dispatched) && IsNewest(failures, limit, failed)
    requires multiset(merged) == multiset(dispatched) + multiset(failed)
    ensures Min(limit, |merged|) == Min(limit, |alerts + failures|)
    ensures multiset(merged[..Min(limit, |merged|)]) <= alerts + failures
  {
    var k := Min(limit, |merged|);
    assert |multiset(merged)| == |merged|;
    SplitCounts(merged, k);
    forall x ensures multiset(merged[..k])[x] <= (alerts + failures)[x] {
      assert multiset(merged)[x] == multiset(dispatched)[x] + multiset(failed)[x];
    }
  }

  lemma LeftOutIsOld(alerts: multiset<AlertItem>, failures: multiset<AlertItem>, dispatched: seq<AlertItem>, failed: seq<AlertItem>,
                     limit: nat, merged: seq<AlertItem>, x: AlertItem, p: nat)
    requires IsNewest(alerts, limit, dispatched) && IsNewest(failures, limit, failed)
    requires multiset(merged) == multiset(dispatched) + multiset(failed) && SortedBy(NewerFirst, merged)
    requires p < Min(limit, |merged|) && x in alerts + failures - multiset(merged[..Min(limit, |merged|)])
    ensures x.at <= merged[p].at
  {
    var k := Min(limit, |merged|);
    if x in merged[k..] {
      LaterIsOlder(merged, k, p, x);
    } else {
      SplitCounts(merged, k);
      CutBefore(alerts, failures, multiset(dispatched), multiset(failed), multiset(merged), multiset(merged[..k]), x);
      if x in alerts - multiset(dispatched) {
        CutRowIsOld(alerts, failed, dispatched, limit, merged, x, p);
      } else {
        CutRowIsOld(failures, dispatched, failed, limit, merged, x, p);
      }
    }
  }

  lemma LaterIsOlder(xs: seq<AlertItem>, k: nat, p: nat, x: AlertItem)
    requires SortedBy(NewerFirst, xs) && p < k <= |xs| && x in xs[k..]
    ensures x.at <= xs[p].at
  {
    var i :| 0 <= i < |xs[k..]| && xs[k..][i] == x;
    assert xs[k + i] == x && NewerFirst(xs[p], xs[k + i]);
  }

  /** A row that is missing, although the cut after the merge has not taken it, was cut from one of the tables. */
  lemma CutBefore<T>(a: multiset<T>, b: multiset<T>, p: multiset<T>, q: multiset<T>, merged: multiset<T>, top: multiset<T>, x: T)
    requires merged == p + q && merged[x] == top[x] && x in a + b - top
    ensures x in a - p || x in b - q
  {
    assert a[x] + b[x] > p[x] + q[x];
  }

  // ---------------------------------------------------------------- error counts

  type ErrorRow = Counter.ErrorRow

  /** `from` is filled in by the service when the request leaves it out; `bucketSec` is at least ten by the schema. */
  datatype StatsQuery = StatsQuery(service: Option<string>, from: int, to: Option<int>, bucketSec: nat)

  predicate Matches(q: StatsQuery, r: ErrorRow) {
    && q.from <= r.createdAt
    && (q.to.Some? ==> r.createdAt < q.to.value)
    && (q.service.Some? ==> r.service == q.service.value)
  }

  function BucketOf(q: StatsQuery, r: ErrorRow): int
    requires q.bucketSec > 0
  {
    BucketStart(r.createdAt, 1000 * q.bucketSec)
  }

  datatype Group = Group(service: string, t: int, count: nat)

  /** The bucket of a row is the one multiple of the bucket width that its time follows by less than a width. */
  lemma BucketHolds(q: StatsQuery, r: ErrorRow, t: int)
    requires q.bucketSec > 0
    ensures BucketOf(q, r) == t <==> t % (1000 * q.bucketSec) == 0 && t <= r.createdAt < t + 1000 * q.bucketSec
  {
    if t % (1000 * q.bucketSec) == 0 && t <= r.createdAt < t + 1000 * q.bucketSec {
      BucketStartUnique(r.createdAt, 1000 * q.bucketSec, t);
    }
  }

  /** The matching rows of one service and bucket. */
  ghost function Members(rows: seq<ErrorRow>, q: StatsQuery, service: string, t: int): set<nat>
    requires q.bucketSec > 0
  {
    set p: nat | p < |rows| && Matches(q, rows[p]) && rows[p].service == service && BucketOf(q, rows[p]) == t
  }

  ghost function Matching(rows: seq<ErrorRow>, q: StatsQuery): set<nat> {
    set p: nat | p < |rows| && Matches(q, rows[p])
  }

  ghost predicate CountsMembers(rows: seq<ErrorRow>, q: StatsQuery, groups: seq<Group>)
    requires q.bucketSec > 0
  {
    forall i :: 0 <= i < |groups| ==> groups[i].count == |Members(rows, q, groups[i].service, groups[i].t)| > 0
  }

  ghost predicate TimesAscend(groups: seq<Group>) {
    forall i, j :: 0 <= i < j < |groups| && groups[i].service == groups[j].service ==> groups[i].t < groups[j].t
  }

  /** `groups` answers the grouped query: one group per service and bucket that occurs, times ascending within a service. */
  ghost predicate IsGrouping(rows: seq<ErrorRow>, q: StatsQuery, groups: seq<Group>)
    requires q.bucketSec > 0
  {
    && CountsMembers(rows, q, groups)
    && TimesAscend(groups)
    && (forall p :: p in Matching(rows, q) ==> exists i :: 0 <= i < |groups| && HasRow(q, groups[i], rows[p]))
  }

  predicate HasRow(q: StatsQuery, g: Group, r: ErrorRow)
    requires q.bucketSec > 0
  {
    g.service == r.service && g.t == BucketOf(q, r)
  }

  // The query has an answer for every table.

  /** One more row of a service and bucket, in groups that are kept in the order of their times. */
  function AddRow(groups: seq<Group>, service: string, t: int): seq<Group> {
    if groups == [] then [Group(service, t, 1)]
    else if groups[0].service == service && groups[0].t == t then [Group(service, t, groups[0].count + 1)] + groups[1..]
    else if t < groups[0].t then [Group(service, t, 1)] + groups
    else [groups[0]] + AddRow(groups[1..], service, t)
  }

  function Answer(rows: seq<ErrorRow>, q: StatsQuery): seq<Group>
    requires q.bucketSec > 0
  {
    if rows == [] then []
    else
      var before := Answer(rows[..|rows| - 1], q);
      var r := rows[|rows| - 1];
      if Matches(q, r) then AddRow(before, r.service, BucketOf(q, r)) else before
  }

  /** The count of a service and bucket among the groups. */
  function CountOf(groups: seq<Group>, service: string, t: int): nat {
    if groups == [] then 0
    else (if groups[0].service == service && groups[0].t == t then groups[0].count else 0) + CountOf(groups[1..], service, t)
  }

  ghost predicate InTimeOrder(groups: seq<Group>) {
    && (forall i :: 0 <= i < |groups| ==> groups[i].count > 0)
    && forall i, j :: 0 <= i < j < |groups| ==>
         groups[i].t <= groups[j].t && !(groups[i].service == groups[j].service && groups[i].t == groups[j].t)
  }

  /** Every key of the new groups is the added one or an old one. */
  lemma {:induction false} AddedKeys(groups: seq<Group>, service: string, t: int, g: Group)
    requires g in AddRow(groups, service, t) && !(g.service == service && g.t == t)
    ensures g in groups
  {
    if groups != [] && !(groups[0].service == service && groups[0].t == t) && groups[0].t <= t && g != groups[0] {
      AddedKeys(groups[1..], service, t, g);
    }
  }

  lemma {:induction false} AddedRow(groups: seq<Group>, service: string, t: int)
    requires InTimeOrder(groups)
    ensures InTimeOrder(AddRow(groups, service, t))
  {
    if groups != [] && !(groups[0].service == service && groups[0].t == t) && groups[0].t <= t {
      var rest := AddRow(groups[1..], service, t);
      AddedRow(groups[1..], service, t);
      forall j | 0 <= j < |rest|
        ensures groups[0].t <= rest[j].t && !(groups[0].service == rest[j].service && groups[0].t == rest[j].t)
      {
        if !(rest[j].service == service && rest[j].t == t) {
          AddedKeys(groups[1..], service, t, rest[j]);
        }
      }
      FirstInOrder(groups[0], rest);
    }
  }

  lemma FirstInOrder(g: Group, rest: seq<Group>)
    requires InTimeOrder(rest) && g.count > 0
    requires forall j :: 0 <= j < |rest| ==> g.t <= rest[j].t && !(g.service == rest[j].service && g.t == rest[j].t)
    ensures InTimeOrder([g] + rest)
  {
  }

  lemma {:induction false} AddedCount(groups: seq<Group>, service: string, t: int, s: string, u: int)
    ensures CountOf(AddRow(groups, service, t), s, u) == CountOf(groups, s, u) + if s == service && u == t then 1 else 0
  {
    if groups != [] && !(groups[0].service == service && groups[0].t == t) && groups[0].t <= t {
      AddedCount(groups[1..], service, t, s, u);
    }
  }

  lemma {:induction false} CountOfGroup(groups: seq<Group>, s: string, u: int)
    requires InTimeOrder(groups)
    ensures forall i :: 0 <= i < |groups| && groups[i].service == s && groups[i].t == u ==> groups[i].count == CountOf(groups, s, u)
    ensures CountOf(groups, s, u) > 0 ==> exists i :: 0 <= i < |groups| && groups[i].service == s && groups[i].t == u
  {
    if groups != [] {
      CountOfGroup(groups[1..], s, u);
      assert forall i :: 0 < i < |groups| ==> groups[i] == groups[1..][i - 1];
    }
  }

  lemma {:induction false} AnswerCounts(rows: seq<ErrorRow>, q: StatsQuery, s: string, u: int)
    requires q.bucketSec > 0
    ensures InTimeOrder(Answer(rows, q))
    ensures CountOf(Answer(rows, q), s, u) == |Members(rows, q, s, u)|
  {
    if rows == [] {
      assert Members(rows, q, s, u) == {};
    } else {
      var last := |rows| - 1;
      var before := rows[..last];
      var r := rows[last];
      AnswerCounts(before, q, s, u);
      var hit := Matches(q, r) && r.service == s && BucketOf(q, r) == u;
      assert Members(rows, q, s, u) == Members(before, q, s, u) + if hit then {last} else {};
      if Matches(q, r) {
        AddedRow(Answer(before, q), r.service, BucketOf(q, r));
        AddedCount(Answer(before, q), r.service, BucketOf(q, r), s, u);
      }
    }
  }

  /** For every table and query there is an answer of the kind the results below ask for. */
  lemma QueryHasAnswer(rows: seq<ErrorRow>, q: StatsQuery)
    requires q.bucketSec > 0
    ensures IsGrouping(rows, q, Answer(rows, q))
  {
    var groups := Answer(rows, q);
    AnswerCounts(rows, q, "", 0);
    forall i | 0 <= i < |groups| ensures groups[i].count == |Members(rows, q, groups[i].service, groups[i].t)| > 0 {
      AnswerCounts(rows, q, groups[i].service, groups[i].t);
      CountOfGroup(groups, groups[i].service, groups[i].t);
    }
    forall p | p in Matching(rows, q) ensures exists i :: 0 <= i < |groups| && HasRow(q, groups[i], rows[p]) {
      var s, u := rows[p].service, BucketOf(q, rows[p]);
      AnswerCounts(rows, q, s, u);
      SubsetSize({p}, Members(rows, q, s, u));
      CountOfGroup(groups, s, u);
      var i :| 0 <= i < |groups| && groups[i].service == s && groups[i].t == u;
      assert HasRow(q, groups[i], rows[p]);
    }
  }

  datatype Bucket = Bucket(t: int, count: nat)
  datatype Series = Series(service: string, buckets: seq<Bucket>)

  /** The services of the groups, in the order of their first group: the order a JavaScript Map keeps. */
  function ServicesOf(groups: seq<Group>): seq<string> {
    if groups == [] then []
    else
      var before := ServicesOf(groups[..|groups| - 1]);
      var s := groups[|groups| - 1].service;
      if s in before then before else before + [s]
  }

  function BucketsOf(groups: seq<Group>, service: string): seq<Bucket> {
    if groups == [] then []
    else
      var before := BucketsOf(groups[..|groups| - 1], service);
      var g := groups[|groups| - 1];
      if g.service == service then before + [Bucket(g.t, g.count)] else before
  }

  function SeriesOf(groups: seq<Group>): (r: seq<Series>)
    ensures |r| == |ServicesOf(groups)|
    ensures forall i :: 0 <= i < |r| ==> r[i] == Series(ServicesOf(groups)[i], BucketsOf(groups, ServicesOf(groups)[i]))
  {
    var services := ServicesOf(groups);
    seq(|services|, i requires 0 <= i < |services| => Series(services[i], BucketsOf(groups, services[i])))
  }

  /** The grouping loop over the answer of the query. */
  method Stats(groups: seq<Group>) returns (r: seq<Series>)
    ensures r == SeriesOf(groups)
  {
    var order: seq<string> := [];
    var bySvc: map<string, seq<Bucket>> := map[];
    for i := 0 to |groups|
      invariant order == ServicesOf(groups[..i])
      invariant forall s :: s in bySvc <==> s in order
      invariant forall s :: s in bySvc ==> bySvc[s] == BucketsOf(groups[..i], s)
      invariant forall s :: s !in bySvc ==> BucketsOf(groups[..i], s) == []
    {
      var g := groups[i];
      assert groups[..i + 1][..i] == groups[..i];
      if g.service !in bySvc {
        order := order + [g.service];
        bySvc := bySvc[g.service := []];
      }
      bySvc := bySvc[g.service := bySvc[g.service] + [Bucket(g.t, g.count)]];
    }
    assert groups[..|groups|] == groups;
    r := seq(|order|, i requires 0 <= i < |order| && order[i] in bySvc => Series(order[i], bySvc[order[i]]));
  }

  // What the chart relies on.

  ghost predicate UniqueServices(stats: seq<Series>) {
    forall i, j :: 0 <= i < j < |stats| ==> stats[i].service != stats[j].service
  }

  ghost predicate Ascending(buckets: seq<Bucket>) {
    forall i, j :: 0 <= i < j < |buckets| ==> buckets[i].t < buckets[j].t
  }

  lemma {:induction false} ServicesDistinct(groups: seq<Group>)
    ensures forall i, j :: 0 <= i < j < |ServicesOf(groups)| ==> ServicesOf(groups)[i] != ServicesOf(groups)[j]
    ensures forall i :: 0 <= i < |groups| ==> groups[i].service in ServicesOf(groups)
  {
    if groups != [] {
      var last := |groups| - 1;
      var before := groups[..last];
      ServicesDistinct(before);
      forall i | 0 <= i < |groups| ensures groups[i].service in ServicesOf(groups) {
        assert i < last ==> before[i] == groups[i];
      }
    }
  }

  /** A service has a group before every group of another one. */
  ghost predicate OccursBefore(groups: seq<Group>, s: string, u: string) {
    exists p :: && 0 <= p < |groups| && groups[p].service == s
                && forall r :: 0 <= r <= p ==> groups[r].service != u
  }

  lemma LongerOccursBefore(groups: seq<Group>, g: Group, s: string, u: string)
    requires OccursBefore(groups, s, u)
    ensures OccursBefore(groups + [g], s, u)
  {
    var p :| 0 <= p < |groups| && groups[p].service == s && forall r :: 0 <= r <= p ==> groups[r].service != u;
    assert forall r :: 0 <= r <= p ==> (groups + [g])[r] == groups[r];
  }

  /** The series come in the order of the first group of their service. */
  lemma {:induction false} SeriesInFirstOrder(groups: seq<Group>)
    ensures forall i, j :: 0 <= i < j < |SeriesOf(groups)| ==>
                             OccursBefore(groups, SeriesOf(groups)[i].service, SeriesOf(groups)[j].service)
  {
    var names := ServicesOf(groups);
    if groups != [] {
      var last := |groups| - 1;
      var before, g := groups[..last], groups[last];
      SeriesInFirstOrder(before);
      ServicesDistinct(before);
      assert groups == before + [g];
      forall i, j | 0 <= i < j < |names| ensures OccursBefore(groups, names[i], names[j]) {
        if j < |ServicesOf(before)| {
          assert OccursBefore(before, SeriesOf(before)[i].service, SeriesOf(before)[j].service);
          LongerOccursBefore(before, g, names[i], names[j]);
        } else {
          NewServiceIsLast(before, g, names[i]);
        }
      }
    }
  }

  lemma NewServiceIsLast(before: seq<Group>, g: Group, s: string)
    requires s in ServicesOf(before) && g.service !in ServicesOf(before)
    ensures OccursBefore(before + [g], s, g.service)
  {
    ServicesDistinct(before);
    ServiceHasGroup(before, s);
    var p :| 0 <= p < |before| && before[p].service == s;
    forall r | 0 <= r <= p ensures (before + [g])[r].service != g.service {
      assert (before + [g])[r] == before[r] && before[r].service in ServicesOf(before);
    }
    assert (before + [g])[p].service == s;
  }

  lemma {:induction false} ServiceHasGroup(groups: seq<Group>, name: string)
    requires name in ServicesOf(groups)
    ensures exists i :: 0 <= i < |groups| && groups[i].service == name
  {
    var last := |groups| - 1;
    if groups[last].service != name {
      ServiceHasGroup(groups[..last], name);
      var i :| 0 <= i < last && groups[..last][i].service == name;
      assert groups[i].service == name;
    }
  }

  lemma {:induction false} BucketsComeFromGroups(groups: seq<Group>, service: string)
    ensures forall b :: b in BucketsOf(groups, service) <==> Group(service, b.t, b.count) in groups
  {
    if groups != [] {
      var last := |groups| - 1;
      BucketsComeFromGroups(groups[..last], service);
      assert groups == groups[..last] + [groups[last]];
    }
  }

  lemma {:induction false} BucketsAscend(groups: seq<Group>, service: string)
    requires TimesAscend(groups)
    ensures Ascending(BucketsOf(groups, service))
  {
    if groups != [] {
      var last := |groups| - 1;
      var before := groups[..last];
      assert forall i :: 0 <= i < last ==> before[i] == groups[i];
      BucketsAscend(before, service);
      BucketsComeFromGroups(before, service);
      if groups[last].service == service {
        var earlier := BucketsOf(before, service);
        forall i | 0 <= i < |earlier| ensures earlier[i].t < groups[last].t {
          assert earlier[i] in earlier;
          var k :| 0 <= k < last && before[k] == Group(service, earlier[i].t, earlier[i].count);
          assert groups[k].t < groups[last].t;
        }
      }
    }
  }

  function CountSum(buckets: seq<Bucket>): nat {
    if buckets == [] then 0 else CountSum(buckets[..|buckets| - 1]) + buckets[|buckets| - 1].count
  }

  /** The sum of the summary tile: over all series, over all buckets. */
  function TotalErrorsInRange(stats: seq<Series>): nat {
    if stats == [] then 0 else TotalErrorsInRange(stats[..|stats| - 1]) + CountSum(stats[|stats| - 1].buckets)
  }

  /** The total over the listed services. */
  ghost function TotalFor(services: seq<string>, groups: seq<Group>): nat {
    if services == [] then 0
    else TotalFor(services[..|services| - 1], groups) + CountSum(BucketsOf(groups, services[|services| - 1]))
  }

  ghost function GroupSum(groups: seq<Group>): nat {
    if groups == [] then 0 else GroupSum(groups[..|groups| - 1]) + groups[|groups| - 1].count
  }

  lemma {:induction false} TotalIsOverServices(groups: seq<Group>, n: nat)
    requires n <= |ServicesOf(groups)|
    ensures TotalErrorsInRange(SeriesOf(groups)[..n]) == TotalFor(ServicesOf(groups)[..n], groups)
  {
    if n > 0 {
      TotalIsOverServices(groups, n - 1);
      assert SeriesOf(groups)[..n][..n - 1] == SeriesOf(groups)[..n - 1];
      assert ServicesOf(groups)[..n][..n - 1] == ServicesOf(groups)[..n - 1];
    }
  }

  ghost predicate Distinct(xs: seq<string>) {
    forall i, j :: 0 <= i < j < |xs| ==> xs[i] != xs[j]
  }

  /** One more group adds its count once, if its service is listed. */
  lemma {:induction false} OneMoreGroup(services: seq<string>, groups: seq<Group>)
    requires groups != [] && Distinct(services)
    ensures TotalFor(services, groups) == TotalFor(services, groups[..|groups| - 1])
            + if groups[|groups| - 1].service in services then groups[|groups| - 1].count else 0
  {
    if services != [] {
      var last := |services| - 1;
      var g := groups[|groups| - 1];
      OneMoreGroup(services[..last], groups);
      var before := BucketsOf(groups[..|groups| - 1], services[last]);
      assert (before + [Bucket(g.t, g.count)])[..|before|] == before;
      assert g.service in services <==> g.service in services[..last] || g.service == services[last];
    }
  }

  lemma {:induction false} TotalIsGroupSum(groups: seq<Group>)
    ensures TotalFor(ServicesOf(groups), groups) == GroupSum(groups)
  {
    if groups != [] {
      var last := |groups| - 1;
      var before := groups[..last];
      TotalIsGroupSum(before);
      ServicesDistinct(groups);
      OneMoreGroup(ServicesOf(groups), groups);
      if groups[last].service !in ServicesOf(before) {
        assert ServicesOf(groups)[..|ServicesOf(before)|] == ServicesOf(before);
        NoBucketsForStranger(before, groups[last].service);
      }
    }
  }

  lemma {:induction false} NoBucketsForStranger(groups: seq<Group>, s: string)
    requires s !in ServicesOf(groups)
    ensures BucketsOf(groups, s) == []
  {
    if groups != [] {
      NoBucketsForStranger(groups[..|groups| - 1], s);
    }
  }

  /** The rows gathered by the first `n` groups. */
  ghost function Gathered(rows: seq<ErrorRow>, q: StatsQuery, groups: seq<Group>, n: nat): set<nat>
    requires q.bucketSec > 0 && n <= |groups|
  {
    set p | p in Matching(rows, q) && exists i :: 0 <= i < n && HasRow(q, groups[i], rows[p])
  }

  lemma NextGroupIsApart(rows: seq<ErrorRow>, q: StatsQuery, groups: seq<Group>, n: nat)
    requires q.bucketSec > 0 && n < |groups|
    requires TimesAscend(groups)
    ensures Gathered(rows, q, groups, n) !! Members(rows, q, groups[n].service, groups[n].t)
    ensures Gathered(rows, q, groups, n + 1) == Gathered(rows, q, groups, n) + Members(rows, q, groups[n].service, groups[n].t)
  {
    forall p | p in Members(rows, q, groups[n].service, groups[n].t)
      ensures p in Gathered(rows, q, groups, n + 1) && p !in Gathered(rows, q, groups, n)
    {
      assert HasRow(q, groups[n], rows[p]);
    }
    forall p | p in Gathered(rows, q, groups, n + 1)
      ensures p in Gathered(rows, q, groups, n) + Members(rows, q, groups[n].service, groups[n].t)
    {
      var i :| 0 <= i < n + 1 && HasRow(q, groups[i], rows[p]);
    }
  }

  lemma NextGroupAdds(rows: seq<ErrorRow>, q: StatsQuery, groups: seq<Group>, n: nat)
    requires q.bucketSec > 0 && n < |groups| && CountsMembers(rows, q, groups) && TimesAscend(groups)
    ensures |Gathered(rows, q, groups, n + 1)| == |Gathered(rows, q, groups, n)| + groups[n].count
  {
    NextGroupIsApart(rows, q, groups, n);
    DisjointSize(Gathered(rows, q, groups, n), Members(rows, q, groups[n].service, groups[n].t));
  }

  lemma {:induction false} GroupsPartition(rows: seq<ErrorRow>, q: StatsQuery, groups: seq<Group>, n: nat)
    requires q.bucketSec > 0 && n <= |groups| && CountsMembers(rows, q, groups) && TimesAscend(groups)
    ensures |Gathered(rows, q, groups, n)| == GroupSum(groups[..n])
  {
    if n == 0 {
      assert Gathered(rows, q, groups, 0) == {};
    } else {
      GroupsPartition(rows, q, groups, n - 1);
      NextGroupAdds(rows, q, groups, n - 1);
      GroupSumUpTo(groups, n);
    }
  }

  lemma GroupSumUpTo(groups: seq<Group>, n: nat)
    requires 0 < n <= |groups|
    ensures GroupSum(groups[..n]) == GroupSum(groups[..n - 1]) + groups[n - 1].count
  {
    assert groups[..n][..n - 1] == groups[..n - 1];
  }

  /** The reported total is the number of rows in the range and of the service asked for. */
  lemma TotalIsMatchingRows(rows: seq<ErrorRow>, q: StatsQuery, groups: seq<Group>)
    requires q.bucketSec > 0 && IsGrouping(rows, q, groups)
    ensures TotalErrorsInRange(SeriesOf(groups)) == |Matching(rows, q)|
    ensures Matching(rows, q) == set p: nat | && p < |rows| && q.from <= rows[p].createdAt
                                              && (q.to.Some? ==> rows[p].createdAt < q.to.value)
                                              && (q.service.Some? ==> rows[p].service == q.service.value)
  {
    var n := |ServicesOf(groups)|;
    TotalIsOverServices(groups, n);
    assert SeriesOf(groups)[..n] == SeriesOf(groups) && ServicesOf(groups)[..n] == ServicesOf(groups);
    TotalIsGroupSum(groups);
    GroupsPartition(rows, q, groups, |groups|);
    assert groups[..|groups|] == groups;
    assert Gathered(rows, q, groups, |groups|) == Matching(rows, q);
  }

  /** The grouping loop gives the chart one series per service, with strictly ascending bucket times. */
  lemma StatsShape(rows: seq<ErrorRow>, q: StatsQuery, groups: seq<Group>)
    requires q.bucketSec > 0 && IsGrouping(rows, q, groups)
    ensures UniqueServices(SeriesOf(groups))
    ensures forall i :: 0 <= i < |SeriesOf(groups)| ==> Ascending(SeriesOf(groups)[i].buckets)
  {
    ServicesDistinct(groups);
    forall i | 0 <= i < |SeriesOf(groups)| ensures Ascending(SeriesOf(groups)[i].buckets) {
      BucketsAscend(groups, ServicesOf(groups)[i]);
    }
  }
}
