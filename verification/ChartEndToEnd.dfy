/** From the table of errors to the chart: what a cell means in terms of the rows, through query, grouping and pivot. */
module ChartEndToEnd {
  import opened Common
  import opened Dashboard
  import opened Chart
  import opened ChartGrid
  import opened ChartTotal

  ghost predicate ServiceOccurs(rows: seq<ErrorRow>, q: StatsQuery, name: string) {
    exists p :: p in Matching(rows, q) && rows[p].service == name
  }

  ghost predicate BucketOccurs(rows: seq<ErrorRow>, q: StatsQuery, t: int)
    requires q.bucketSec > 0
  {
    exists p :: p in Matching(rows, q) && BucketOf(q, rows[p]) == t
  }

  /** A group answers for the rows of its service and bucket. */
  lemma GroupHasRows(rows: seq<ErrorRow>, q: StatsQuery, groups: seq<Group>, i: nat) returns (p: nat)
    requires q.bucketSec > 0 && CountsMembers(rows, q, groups) && i < |groups|
    ensures p in Matching(rows, q) && rows[p].service == groups[i].service && BucketOf(q, rows[p]) == groups[i].t
  {
    var members := Members(rows, q, groups[i].service, groups[i].t);
    assert |members| > 0;
    p :| p in members;
  }

  /** The services with a series are those with a matching row. */
  lemma NamesAreServices(rows: seq<ErrorRow>, q: StatsQuery, groups: seq<Group>, name: string)
    requires q.bucketSec > 0 && IsGrouping(rows, q, groups)
    ensures name in NamesOf(SeriesOf(groups)) <==> ServiceOccurs(rows, q, name)
  {
    assert NamesOf(SeriesOf(groups)) == ServicesOf(groups);
    ServicesDistinct(groups);
    if name in ServicesOf(groups) {
      ServiceHasGroup(groups, name);
      var i :| 0 <= i < |groups| && groups[i].service == name;
      var p := GroupHasRows(rows, q, groups, i);
    }
    if p :| p in Matching(rows, q) && rows[p].service == name {
      var i :| 0 <= i < |groups| && HasRow(q, groups[i], rows[p]);
    }
  }

  /** The bucket times of the series are those of the matching rows. */
  lemma TimesAreBuckets(rows: seq<ErrorRow>, q: StatsQuery, groups: seq<Group>, t: int)
    requires q.bucketSec > 0 && IsGrouping(rows, q, groups)
    ensures HasTime(SeriesOf(groups), t) <==> BucketOccurs(rows, q, t)
  {
    var stats := SeriesOf(groups);
    if HasTime(stats, t) {
      var k, j :| 0 <= k < |stats| && 0 <= j < |stats[k].buckets| && stats[k].buckets[j].t == t;
      var b := stats[k].buckets[j];
      assert b in stats[k].buckets;
      BucketsComeFromGroups(groups, stats[k].service);
      var i :| 0 <= i < |groups| && groups[i] == Group(stats[k].service, b.t, b.count);
      var p := GroupHasRows(rows, q, groups, i);
    }
    if p :| p in Matching(rows, q) && BucketOf(q, rows[p]) == t {
      var i :| 0 <= i < |groups| && HasRow(q, groups[i], rows[p]);
      SeriesHasGroup(groups, i);
    }
  }

  lemma SeriesHasGroup(groups: seq<Group>, i: nat)
    requires i < |groups|
    ensures HasTime(SeriesOf(groups), groups[i].t)
  {
    var g := groups[i];
    ServicesDistinct(groups);
    var k :| 0 <= k < |ServicesOf(groups)| && ServicesOf(groups)[k] == g.service;
    BucketsComeFromGroups(groups, g.service);
    assert g == Group(g.service, g.t, g.count) && g in groups;
    var b := Bucket(g.t, g.count);
    assert b in SeriesOf(groups)[k].buckets;
    var j :| 0 <= j < |SeriesOf(groups)[k].buckets| && SeriesOf(groups)[k].buckets[j] == b;
    assert SeriesOf(groups)[k].buckets[j].t == g.t;
  }

  /** The count of a series at a time is the number of matching rows of its service in that bucket, zero included. */
  lemma CountsAreRows(rows: seq<ErrorRow>, q: StatsQuery, groups: seq<Group>, k: nat, t: int)
    requires q.bucketSec > 0 && IsGrouping(rows, q, groups) && k < |SeriesOf(groups)|
    ensures CountAt(SeriesOf(groups)[k].buckets, t) == |Members(rows, q, SeriesOf(groups)[k].service, t)|
  {
    var s := SeriesOf(groups)[k];
    var members := Members(rows, q, s.service, t);
    StatsShape(rows, q, groups);
    BucketsComeFromGroups(groups, s.service);
    if p :| p in members {
      assert p in Matching(rows, q);
      var i :| 0 <= i < |groups| && HasRow(q, groups[i], rows[p]);
      var b := Bucket(t, groups[i].count);
      assert groups[i] == Group(s.service, b.t, b.count) && groups[i] in groups;
      CountAtIsBucket(s.buckets, b);
    } else {
      assert members == {};
      forall j | 0 <= j < |s.buckets| ensures s.buckets[j].t != t {
        var b := s.buckets[j];
        assert b in s.buckets;
        var i :| 0 <= i < |groups| && groups[i] == Group(s.service, b.t, b.count);
        var p := GroupHasRows(rows, q, groups, i);
        assert b.t == t ==> p in members;
      }
      CountAtIsBucket(s.buckets, Bucket(t, 1));
    }
  }

  // ---------------------------------------------------------------- the chart

  /** The chart of a table: a row for every bucket that occurs, a cell for every service that occurs, each counting its rows. */
  ghost predicate Charts(rows: seq<ErrorRow>, q: StatsQuery, p: Pivot)
    requires q.bucketSec > 0
  {
    && p.Pivoted?
    && RowsAscend(p.rows)
    && (forall name :: name in p.services <==> ServiceOccurs(rows, q, name))
    && (forall t :: BucketOccurs(rows, q, t) <==> exists i :: 0 <= i < |p.rows| && SortKey(p.rows[i]) == Some(t))
    && forall i, name :: 0 <= i < |p.rows| && name in p.services ==> CellCounts(rows, q, p.rows[i], name)
  }

  ghost predicate CellCounts(rows: seq<ErrorRow>, q: StatsQuery, row: ChartRow, name: string)
    requires q.bucketSec > 0
  {
    SortKey(row).Some? && name in row && row[name] == Number(|Members(rows, q, name, SortKey(row).value)|)
  }

  lemma GridChartsRows(rows: seq<ErrorRow>, q: StatsQuery, groups: seq<Group>, p: Pivot)
    requires q.bucketSec > 0 && IsGrouping(rows, q, groups) && ExactGrid(SeriesOf(groups), p)
    ensures Charts(rows, q, p)
  {
    var stats := SeriesOf(groups);
    forall name ensures name in p.services <==> ServiceOccurs(rows, q, name) {
      NamesAreServices(rows, q, groups, name);
      assert name in p.services <==> name in multiset(p.services);
      assert name in NamesOf(stats) <==> name in multiset(NamesOf(stats));
    }
    forall t ensures BucketOccurs(rows, q, t) <==> exists i :: 0 <= i < |p.rows| && SortKey(p.rows[i]) == Some(t) {
      TimesAreBuckets(rows, q, groups, t);
    }
    forall i, name | 0 <= i < |p.rows| && name in p.services ensures CellCounts(rows, q, p.rows[i], name) {
      var t := SortKey(p.rows[i]).value;
      assert name in multiset(p.services) && name in NamesOf(stats);
      var k :| 0 <= k < |stats| && NamesOf(stats)[k] == name;
      assert Shows(p.rows[i], stats, t) && CellAt(p.rows[i], stats[k], t);
      CountsAreRows(rows, q, groups, k, t);
    }
  }

  /**
   End to end. From the table of errors through the grouped query, the grouping loop and the pivot, the chart has exactly
   the buckets and services of the matching rows and every cell counts its rows, if and only if no matching row's service
   has one of the two names a row object cannot hold as a cell.
   */
  lemma ChartIsExact(rows: seq<ErrorRow>, q: StatsQuery, groups: seq<Group>)
    requires q.bucketSec > 0 && IsGrouping(rows, q, groups)
    ensures Charts(rows, q, PivotOf(SeriesOf(groups))) <==> !ServiceOccurs(rows, q, "t") && !ServiceOccurs(rows, q, "__proto__")
  {
    var stats := SeriesOf(groups);
    StatsShape(rows, q, groups);
    NamesAreServices(rows, q, groups, "t");
    NamesAreServices(rows, q, groups, "__proto__");
    if !ServiceOccurs(rows, q, "t") && !ServiceOccurs(rows, q, "__proto__") {
      PlainNamesGiveGrid(stats);
      GridChartsRows(rows, q, groups, PivotOf(stats));
    } else {
      var name := if ServiceOccurs(rows, q, "t") then "t" else "__proto__";
      var m :| m in Matching(rows, q) && rows[m].service == name;
      SpecialNameSpoils(rows, q, PivotOf(stats), m);
      if PivotOf(stats).Pivoted? {
        forall i | 0 <= i < |PivotOf(stats).rows| ensures "__proto__" !in PivotOf(stats).rows[i] {
          RowsLackPrototypeName(stats, i);
        }
      }
    }
  }

  /** A chart of a table with a special name would need a row that shows it. */
  lemma SpecialNameSpoils(rows: seq<ErrorRow>, q: StatsQuery, p: Pivot, m: nat)
    requires q.bucketSec > 0 && m in Matching(rows, q)
    ensures Charts(rows, q, p) ==> rows[m].service != "t"
    ensures Charts(rows, q, p) ==> exists i :: 0 <= i < |p.rows| && rows[m].service in p.rows[i]
  {
    if Charts(rows, q, p) {
      var name, t := rows[m].service, BucketOf(q, rows[m]);
      assert ServiceOccurs(rows, q, name) && BucketOccurs(rows, q, t);
      var i :| 0 <= i < |p.rows| && SortKey(p.rows[i]) == Some(t);
      assert CellCounts(rows, q, p.rows[i], name);
    }
  }

  /**
   The total end to end: the cells add up to the number of matching rows exactly when no matching row has the prototype
   name, and not both a matching row is named "t" and the matching rows fall into two buckets or more.
   */
  lemma ChartTotalIsRows(rows: seq<ErrorRow>, q: StatsQuery, groups: seq<Group>)
    requires q.bucketSec > 0 && IsGrouping(rows, q, groups)
    ensures var p := PivotOf(SeriesOf(groups));
      p.Pivoted? && CellSum(p.rows, p.services) == |Matching(rows, q)|
      <==> && !ServiceOccurs(rows, q, "__proto__")
           && !(ServiceOccurs(rows, q, "t") && exists t, u :: BucketOccurs(rows, q, t) && BucketOccurs(rows, q, u) && t < u)
  {
    StatsShape(rows, q, groups);
    PivotKeepsTotalExactly(SeriesOf(groups));
    TotalIsMatchingRows(rows, q, groups);
    ThrowsByRows(rows, q, groups);
    HidesByRows(rows, q, groups);
  }

  lemma ThrowsByRows(rows: seq<ErrorRow>, q: StatsQuery, groups: seq<Group>)
    requires q.bucketSec > 0 && IsGrouping(rows, q, groups)
    ensures SortThrows(SeriesOf(groups))
            <==> ServiceOccurs(rows, q, "t") && exists t, u :: BucketOccurs(rows, q, t) && BucketOccurs(rows, q, u) && t < u
  {
    NamesAreServices(rows, q, groups, "t");
    forall t ensures HasTime(SeriesOf(groups), t) <==> BucketOccurs(rows, q, t) {
      TimesAreBuckets(rows, q, groups, t);
    }
  }

  lemma HidesByRows(rows: seq<ErrorRow>, q: StatsQuery, groups: seq<Group>)
    requires q.bucketSec > 0 && IsGrouping(rows, q, groups)
    ensures var stats := SeriesOf(groups);
      (forall k :: 0 <= k < |stats| && stats[k].service == "__proto__" ==> CountSum(stats[k].buckets) == 0)
      <==> !ServiceOccurs(rows, q, "__proto__")
  {
    var stats := SeriesOf(groups);
    NamesAreServices(rows, q, groups, "__proto__");
    forall k | 0 <= k < |stats| ensures CountSum(stats[k].buckets) > 0 && NamesOf(stats)[k] == stats[k].service {
      SeriesHasErrors(rows, q, groups, k);
    }
  }

  lemma SeriesHasErrors(rows: seq<ErrorRow>, q: StatsQuery, groups: seq<Group>, k: nat)
    requires q.bucketSec > 0 && CountsMembers(rows, q, groups) && k < |SeriesOf(groups)|
    ensures CountSum(SeriesOf(groups)[k].buckets) > 0
  {
    var s := SeriesOf(groups)[k];
    ServiceHasGroup(groups, ServicesOf(groups)[k]);
    var i :| 0 <= i < |groups| && groups[i].service == s.service;
    BucketsComeFromGroups(groups, s.service);
    var b := Bucket(groups[i].t, groups[i].count);
    assert groups[i] == Group(s.service, b.t, b.count) && groups[i] in groups;
    CountSumHolds(s.buckets, b);
  }

  lemma {:induction false} CountSumHolds(buckets: seq<Bucket>, b: Bucket)
    requires b in buckets
    ensures CountSum(buckets) >= b.count
  {
    var last := |buckets| - 1;
    if buckets[last] != b {
      CountSumHolds(buckets[..last], b);
    }
  }
}
