/** The chart rows as a grid of bucket times by services: when the pivot is that grid exactly, and what it lets one recover. */
module ChartGrid {
  import opened Common
  import opened Sorting
  import opened Dashboard
  import opened Chart

  /** The errors of a series at a time. */
  function CountAt(buckets: seq<Bucket>, t: int): nat {
    if buckets == [] then 0
    else
      var b := buckets[|buckets| - 1];
      CountAt(buckets[..|buckets| - 1], t) + if b.t == t then b.count else 0
  }

  /** A row with its time, exactly one number for every service, and nothing else. */
  ghost predicate Shows(row: ChartRow, stats: seq<Series>, t: int) {
    && (forall name :: name in row <==> name == "t" || name in NamesOf(stats))
    && row["t"] == Time(t)
    && forall k :: 0 <= k < |stats| ==> CellAt(row, stats[k], t)
  }

  ghost predicate CellAt(row: ChartRow, s: Series, t: int) {
    s.service in row && row[s.service] == Number(CountAt(s.buckets, t))
  }

  ghost predicate RowsAscend(rows: seq<ChartRow>) {
    && (forall i :: 0 <= i < |rows| ==> SortKey(rows[i]).Some?)
    && forall i, j :: 0 <= i < j < |rows| ==> SortKey(rows[i]).value < SortKey(rows[j]).value
  }

  ghost predicate RowsAtBuckets(stats: seq<Series>, rows: seq<ChartRow>) {
    forall t :: HasTime(stats, t) <==> exists i :: 0 <= i < |rows| && SortKey(rows[i]) == Some(t)
  }

  /** The full grid: rows at exactly the bucket times, in order, each showing every service. */
  ghost predicate ExactGrid(stats: seq<Series>, p: Pivot) {
    && p.Pivoted?
    && multiset(p.services) == multiset(NamesOf(stats)) && SortedBy(StringLe, p.services)
    && RowsAscend(p.rows)
    && RowsAtBuckets(stats, p.rows)
    && forall i :: 0 <= i < |p.rows| ==> Shows(p.rows[i], stats, SortKey(p.rows[i]).value)
  }

  // ---------------------------------------------------------------- the cells

  /** The errors of a service at a time, over all entries. */
  function EntryCount(entries: seq<Entry>, name: string, t: int): nat {
    if entries == [] then 0
    else
      var e := entries[|entries| - 1];
      EntryCount(entries[..|entries| - 1], name, t) + if e.service == name && e.t == t then e.count else 0
  }

  lemma {:induction false} NothingToCount(entries: seq<Entry>, name: string, t: int)
    requires forall i :: 0 <= i < |entries| ==> !(entries[i].service == name && entries[i].t == t)
    ensures EntryCount(entries, name, t) == 0
  {
    if entries != [] {
      NothingToCount(entries[..|entries| - 1], name, t);
    }
  }

  lemma {:induction false} BlankRowKeys(services: seq<string>, t: int, name: string)
    requires "__proto__" !in services && "t" !in services
    ensures name in BlankRow(services, t) <==> name == "t" || name in services
    ensures name in services ==> BlankRow(services, t)[name] == Number(0)
  {
    if services != [] {
      var last := |services| - 1;
      BlankRowKeys(services[..last], t, name);
      assert services == services[..last] + [services[last]];
    }
  }

  /** After the entries a row has all services, each with what was counted for it. */
  lemma {:induction false} RowKeys(services: seq<string>, entries: seq<Entry>, t: int, name: string)
    requires "__proto__" !in services && "t" !in services
    requires AllListed(services, entries) && DistinctEntries(entries)
    ensures name in RowAt(services, entries, t) <==> name == "t" || name in services
    ensures name in services ==> RowAt(services, entries, t)[name] == Number(EntryCount(entries, name, t))
  {
    if entries == [] {
      BlankRowKeys(services, t, name);
    } else {
      var last := |entries| - 1;
      RowKeys(services, entries[..last], t, name);
      assert entries[last].service in services;
      if entries[last].service == name && entries[last].t == t {
        NothingToCount(entries[..last], name, t);
      }
    }
  }

  lemma {:induction false} CountAppend(a: seq<Entry>, b: seq<Entry>, name: string, t: int)
    ensures EntryCount(a + b, name, t) == EntryCount(a, name, t) + EntryCount(b, name, t)
  {
    if b == [] {
      assert a + b == a;
    } else {
      assert (a + b)[..|a + b| - 1] == a + b[..|b| - 1];
      CountAppend(a, b[..|b| - 1], name, t);
    }
  }

  lemma {:induction false} CountOfSeries(s: Series, n: nat, name: string, t: int)
    requires n <= |s.buckets|
    ensures EntryCount(EntriesOf(s, n), name, t) == if name == s.service then CountAt(s.buckets[..n], t) else 0
  {
    if n > 0 {
      CountOfSeries(s, n - 1, name, t);
      EntriesOfSeries(s, n);
      assert s.buckets[..n][..n - 1] == s.buckets[..n - 1];
      assert EntriesOf(s, n)[..n - 1] == EntriesOf(s, n - 1);
    }
  }

  lemma CountGrows(stats: seq<Series>, name: string, t: int)
    requires stats != []
    ensures var last := stats[|stats| - 1];
      EntryCount(Entries(stats), name, t)
      == EntryCount(Entries(stats[..|stats| - 1]), name, t) + if name == last.service then CountAt(last.buckets, t) else 0
  {
    var last := stats[|stats| - 1];
    CountOfSeries(last, |last.buckets|, name, t);
    assert last.buckets[..|last.buckets|] == last.buckets;
    CountAppend(Entries(stats[..|stats| - 1]), EntriesOf(last, |last.buckets|), name, t);
  }

  lemma {:induction false} CountElsewhere(stats: seq<Series>, name: string, t: int)
    requires name !in NamesOf(stats)
    ensures EntryCount(Entries(stats), name, t) == 0
  {
    if stats != [] {
      var last := |stats| - 1;
      assert NamesOf(stats) == NamesOf(stats[..last]) + [stats[last].service];
      CountElsewhere(stats[..last], name, t);
      CountGrows(stats, name, t);
    }
  }

  /** What is counted for a service is what its series holds. */
  lemma {:induction false} CountIsSeriesCount(stats: seq<Series>, k: nat, t: int)
    requires UniqueServices(stats) && k < |stats|
    ensures EntryCount(Entries(stats), stats[k].service, t) == CountAt(stats[k].buckets, t)
  {
    var last := |stats| - 1;
    CountGrows(stats, stats[k].service, t);
    if k == last {
      assert stats[k].service !in NamesOf(stats[..last]);
      CountElsewhere(stats[..last], stats[k].service, t);
    } else {
      CountIsSeriesCount(stats[..last], k, t);
    }
  }

  // ---------------------------------------------------------------- the rows

  ghost predicate StrictlyAscending(times: seq<int>) {
    forall i, j :: 0 <= i < j < |times| ==> times[i] < times[j]
  }

  lemma {:induction false} InsertTimeAscending(t: int, times: seq<int>)
    requires StrictlyAscending(times) && t !in times
    ensures StrictlyAscending(Insert(EarlierTime, t, times))
  {
    if times != [] && times[0] < t {
      var rest := Insert(EarlierTime, t, times[1..]);
      InsertTimeAscending(t, times[1..]);
      forall j | 0 <= j < |rest| ensures times[0] < rest[j] {
        assert rest[j] in multiset(rest);
        assert rest[j] == t || rest[j] in times[1..];
      }
    }
  }

  lemma {:induction false} SortTimesAscending(times: seq<int>)
    requires forall i, j :: 0 <= i < j < |times| ==> times[i] != times[j]
    ensures StrictlyAscending(Sort(EarlierTime, times))
    ensures forall t :: t in Sort(EarlierTime, times) <==> t in times
  {
    forall t ensures t in Sort(EarlierTime, times) <==> t in times {
      assert t in Sort(EarlierTime, times) <==> t in multiset(Sort(EarlierTime, times));
      assert t in times <==> t in multiset(times);
    }
    if times != [] {
      SortTimesAscending(times[1..]);
      InsertTimeAscending(times[0], Sort(EarlierTime, times[1..]));
    }
  }

  lemma RowShows(stats: seq<Series>, t: int)
    requires UniqueServices(stats) && forall k :: 0 <= k < |stats| ==> Ascending(stats[k].buckets)
    requires "t" !in NamesOf(stats) && "__proto__" !in NamesOf(stats)
    ensures var row := RowAt(Sort(StringLe, NamesOf(stats)), Entries(stats), t);
      SortKey(row) == Some(t) && Shows(row, stats, t)
  {
    var services, entries := Sort(StringLe, NamesOf(stats)), Entries(stats);
    var row := RowAt(services, entries, t);
    SortedNames(stats);
    SeriesEntriesDistinct(stats);
    RowKeepsTime(services, entries, t);
    forall name ensures name in row <==> name == "t" || name in NamesOf(stats) {
      RowKeys(services, entries, t, name);
    }
    forall k | 0 <= k < |stats| ensures CellAt(row, stats[k], t) {
      assert NamesOf(stats)[k] in NamesOf(stats);
      RowKeys(services, entries, t, stats[k].service);
      CountIsSeriesCount(stats, k, t);
    }
  }

  lemma PlainRowsAreGrid(stats: seq<Series>, services: seq<string>, times: seq<int>)
    requires UniqueServices(stats) && forall k :: 0 <= k < |stats| ==> Ascending(stats[k].buckets)
    requires "t" !in NamesOf(stats) && "__proto__" !in NamesOf(stats)
    requires services == Sort(StringLe, NamesOf(stats)) && times == Sort(EarlierTime, TimesOf(Entries(stats)))
    ensures ExactGrid(stats, Pivoted(RowsAt(services, Entries(stats), times), services))
  {
    var rows := RowsAt(services, Entries(stats), times);
    StringLeIsTotalPreorder();
    SortSorts(StringLe, NamesOf(stats));
    forall i | 0 <= i < |times| ensures SortKey(rows[i]) == Some(times[i]) && Shows(rows[i], stats, times[i]) {
      RowShows(stats, times[i]);
    }
    RowsHaveTimes(stats, rows, times);
  }

  lemma PlainNamesGiveGrid(stats: seq<Series>)
    requires UniqueServices(stats) && forall k :: 0 <= k < |stats| ==> Ascending(stats[k].buckets)
    requires "t" !in NamesOf(stats) && "__proto__" !in NamesOf(stats)
    ensures ExactGrid(stats, PivotOf(stats))
  {
    var services := Sort(StringLe, NamesOf(stats));
    SortedNames(stats);
    PivotByName(stats);
    PlainRowsAreGrid(stats, services, Sort(EarlierTime, TimesOf(Entries(stats))));
  }

  lemma RowsHaveTimes(stats: seq<Series>, rows: seq<ChartRow>, times: seq<int>)
    requires times == Sort(EarlierTime, TimesOf(Entries(stats)))
    requires |rows| == |times| && forall i :: 0 <= i < |rows| ==> SortKey(rows[i]) == Some(times[i])
    ensures RowsAscend(rows) && RowsAtBuckets(stats, rows)
  {
    TimesAreDistinct(Entries(stats));
    SortTimesAscending(TimesOf(Entries(stats)));
    forall t ensures HasTime(stats, t) <==> exists i :: 0 <= i < |rows| && SortKey(rows[i]) == Some(t) {
      TimesOfStats(stats, t);
      if t in times {
        var i :| 0 <= i < |times| && times[i] == t;
        assert SortKey(rows[i]) == Some(t);
      }
    }
  }

  /** No object shows a service named "t": its number would stand where the time is. */
  lemma TimeNameNeverShown(row: ChartRow, stats: seq<Series>, t: int)
    requires "t" in NamesOf(stats)
    ensures !Shows(row, stats, t)
  {
    var k :| 0 <= k < |stats| && NamesOf(stats)[k] == "t";
    assert CellAt(row, stats[k], t) ==> "t" in row && row["t"].Number?;
  }

  lemma RowsLackPrototypeName(stats: seq<Series>, i: nat)
    requires PivotOf(stats).Pivoted? && i < |PivotOf(stats).rows|
    ensures "__proto__" !in PivotOf(stats).rows[i]
  {
    var times := PivotRows(stats);
    NoPrototypeCell(PivotOf(stats).services, Entries(stats), times[i]);
  }

  /** With one of the two special names no row is as it should be. */
  lemma SpecialNamesBreakGrid(stats: seq<Series>, t: int)
    requires HasTime(stats, t) && ("t" in NamesOf(stats) || "__proto__" in NamesOf(stats))
    ensures !ExactGrid(stats, PivotOf(stats))
  {
    var p := PivotOf(stats);
    if p.Pivoted? {
      forall i | 0 <= i < |p.rows| ensures !Shows(p.rows[i], stats, t) {
        if "t" in NamesOf(stats) {
          TimeNameNeverShown(p.rows[i], stats, t);
        } else {
          RowsLackPrototypeName(stats, i);
        }
      }
    }
  }

  lemma {:induction false} NoEntries(stats: seq<Series>)
    requires forall k :: 0 <= k < |stats| ==> stats[k].buckets == []
    ensures Entries(stats) == []
  {
    if stats != [] {
      NoEntries(stats[..|stats| - 1]);
      assert stats[|stats| - 1].buckets == [];
    }
  }

  lemma NoBucketsNoRows(stats: seq<Series>)
    requires forall k :: 0 <= k < |stats| ==> stats[k].buckets == []
    ensures ExactGrid(stats, PivotOf(stats))
  {
    NoEntries(stats);
    StringLeIsTotalPreorder();
    SortSorts(StringLe, NamesOf(stats));
  }

  /**
   For unique services with ascending buckets the pivot is the exact grid if and only if there is nothing to show or no
   service has one of the two names that a row object cannot hold as a cell.
   */
  lemma PivotIsGridExactly(stats: seq<Series>)
    requires UniqueServices(stats) && forall k :: 0 <= k < |stats| ==> Ascending(stats[k].buckets)
    ensures ExactGrid(stats, PivotOf(stats))
            <==> (forall k :: 0 <= k < |stats| ==> stats[k].buckets == [])
                 || ("t" !in NamesOf(stats) && "__proto__" !in NamesOf(stats))
  {
    if "t" !in NamesOf(stats) && "__proto__" !in NamesOf(stats) {
      PlainNamesGiveGrid(stats);
    } else if k :| 0 <= k < |stats| && stats[k].buckets != [] {
      assert HasTime(stats, stats[k].buckets[0].t);
      SpecialNamesBreakGrid(stats, stats[k].buckets[0].t);
    } else {
      NoBucketsNoRows(stats);
    }
  }

  // ---------------------------------------------------------------- the way back

  /** A column of the grid read as buckets. */
  function ColumnOf(rows: seq<ChartRow>, name: string): seq<Bucket> {
    if rows == [] then []
    else
      var rest := ColumnOf(rows[1..], name);
      match SortKey(rows[0])
      case Some(t) => [Bucket(t, CellOf(rows[0], name))] + rest
      case None => rest
  }

  function NonZero(buckets: seq<Bucket>): seq<Bucket> {
    if buckets == [] then []
    else (if buckets[0].count > 0 then [buckets[0]] else []) + NonZero(buckets[1..])
  }

  lemma {:induction false} ColumnShape(rows: seq<ChartRow>, name: string)
    requires RowsAscend(rows)
    ensures |ColumnOf(rows, name)| == |rows|
    ensures forall i :: 0 <= i < |rows| ==> ColumnOf(rows, name)[i] == Bucket(SortKey(rows[i]).value, CellOf(rows[i], name))
  {
    if rows != [] {
      ColumnShape(rows[1..], name);
    }
  }

  lemma {:induction false} NonZeroMembers(buckets: seq<Bucket>)
    ensures forall b :: b in NonZero(buckets) <==> b in buckets && b.count > 0
    ensures Ascending(buckets) ==> Ascending(NonZero(buckets))
  {
    if buckets != [] {
      NonZeroMembers(buckets[1..]);
      assert buckets == [buckets[0]] + buckets[1..];
      if Ascending(buckets) {
        forall b | b in NonZero(buckets[1..]) ensures buckets[0].t < b.t {
          assert b in buckets[1..];
        }
      }
    }
  }

  lemma {:induction false} CountAtIsBucket(buckets: seq<Bucket>, b: Bucket)
    requires Ascending(buckets) && b.count > 0
    ensures CountAt(buckets, b.t) == b.count <==> b in buckets
    ensures (forall i :: 0 <= i < |buckets| ==> buckets[i].t != b.t) ==> CountAt(buckets, b.t) == 0
  {
    if buckets != [] {
      var last := |buckets| - 1;
      CountAtIsBucket(buckets[..last], b);
      assert buckets == buckets[..last] + [buckets[last]];
    }
  }

  /** Ascending buckets are determined by their set. */
  lemma {:induction false} SameBuckets(a: seq<Bucket>, b: seq<Bucket>)
    requires Ascending(a) && Ascending(b) && forall x :: x in a <==> x in b
    ensures a == b
  {
    assert a == [] || a[0] in a;
    assert b == [] || b[0] in b;
    if a != [] && b != [] {
      assert a[0] in b && b[0] in a;
      assert a[0] == b[0];
      forall x ensures x in a[1..] <==> x in b[1..] {
        assert a == [a[0]] + a[1..] && b == [b[0]] + b[1..];
        assert x in a <==> x in b;
        assert a[0] !in a[1..] && b[0] !in b[1..];
      }
      SameBuckets(a[1..], b[1..]);
    }
  }

  /** Every series comes back from its column of the grid, up to buckets without errors. */
  lemma SeriesComeBack(stats: seq<Series>, p: Pivot, k: nat)
    requires ExactGrid(stats, p) && k < |stats| && Ascending(stats[k].buckets)
    ensures NonZero(ColumnOf(p.rows, stats[k].service)) == NonZero(stats[k].buckets)
  {
    var column := ColumnOf(p.rows, stats[k].service);
    ColumnShape(p.rows, stats[k].service);
    NonZeroMembers(column);
    NonZeroMembers(stats[k].buckets);
    forall b ensures b in NonZero(column) <==> b in NonZero(stats[k].buckets) {
      BucketInColumn(stats, p, k, b);
    }
    SameBuckets(NonZero(column), NonZero(stats[k].buckets));
  }

  lemma BucketInColumn(stats: seq<Series>, p: Pivot, k: nat, b: Bucket)
    requires ExactGrid(stats, p) && k < |stats| && Ascending(stats[k].buckets)
    ensures b.count > 0 ==> (b in ColumnOf(p.rows, stats[k].service) <==> b in stats[k].buckets)
  {
    if b.count > 0 {
      var column := ColumnOf(p.rows, stats[k].service);
      ColumnShape(p.rows, stats[k].service);
      CountAtIsBucket(stats[k].buckets, b);
      if b in column {
        var i :| 0 <= i < |column| && column[i] == b;
        assert Shows(p.rows[i], stats, b.t) && CellAt(p.rows[i], stats[k], b.t);
      }
      if b in stats[k].buckets {
        var j :| 0 <= j < |stats[k].buckets| && stats[k].buckets[j] == b;
        assert HasTime(stats, b.t);
        var i :| 0 <= i < |p.rows| && SortKey(p.rows[i]) == Some(b.t);
        assert Shows(p.rows[i], stats, b.t) && CellAt(p.rows[i], stats[k], b.t);
        assert column[i] == b;
      }
    }
  }
}
