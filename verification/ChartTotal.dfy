/** The errors counted by the query are the errors the chart shows: the total through the series and the pivot. */
module ChartTotal {
  import opened Sorting
  import opened Dashboard
  import opened Chart

  function RowSum(row: ChartRow, services: seq<string>): nat {
    if services == [] then 0
    else RowSum(row, services[..|services| - 1]) + CellOf(row, services[|services| - 1])
  }

  function CellSum(rows: seq<ChartRow>, services: seq<string>): nat {
    if rows == [] then 0 else RowSum(rows[0], services) + CellSum(rows[1..], services)
  }

  function EntrySum(entries: seq<Entry>): nat {
    if entries == [] then 0 else EntrySum(entries[..|entries| - 1]) + entries[|entries| - 1].count
  }

  /** The errors a plain object cannot show: those of a service named like its prototype property. */
  function HiddenSum(entries: seq<Entry>): nat {
    if entries == [] then 0
    else
      var e := entries[|entries| - 1];
      HiddenSum(entries[..|entries| - 1]) + if e.service == "__proto__" then e.count else 0
  }

  /** Setting one cell that showed nothing adds its count to the row. */
  lemma {:induction false} SetCellAdds(row: ChartRow, services: seq<string>, name: string, n: nat)
    requires Distinct(services) && CellOf(row, name) == 0
    ensures RowSum(row[name := Number(n)], services) == RowSum(row, services) + if name in services then n else 0
  {
    if services != [] {
      var last := |services| - 1;
      SetCellAdds(row, services[..last], name, n);
      assert name in services <==> name in services[..last] || name == services[last];
    }
  }

  lemma {:induction false} BlankRowSum(services: seq<string>, names: seq<string>, t: int)
    ensures RowSum(BlankRow(services, t), names) == 0
  {
    if names != [] {
      BlankRowSum(services, names[..|names| - 1], t);
      BlankShowsNothing(services, t, names[|names| - 1]);
    }
  }

  /** The sum of the rows of `times` after the entries. */
  ghost function GridSum(services: seq<string>, entries: seq<Entry>, times: seq<int>): nat {
    if times == [] then 0
    else RowSum(RowAt(services, entries, times[0]), services) + GridSum(services, entries, times[1..])
  }

  lemma {:induction false} GridSumAppend(services: seq<string>, entries: seq<Entry>, times: seq<int>, t: int)
    ensures GridSum(services, entries, times + [t]) == GridSum(services, entries, times) + RowSum(RowAt(services, entries, t), services)
  {
    if times == [] {
      assert ([t])[1..] == [];
    } else {
      assert (times + [t])[1..] == times[1..] + [t];
      GridSumAppend(services, entries, times[1..], t);
    }
  }

  /** Entries of other times leave the rows alone. */
  lemma {:induction false} OtherTimesUntouched(services: seq<string>, entries: seq<Entry>, times: seq<int>)
    requires entries != [] && entries[|entries| - 1].t !in times
    ensures GridSum(services, entries, times) == GridSum(services, entries[..|entries| - 1], times)
  {
    if times != [] {
      OtherTimesUntouched(services, entries, times[1..]);
    }
  }

  /** The row of the newest entry grows by its count, if the object can show it. */
  lemma NewestRowGrows(services: seq<string>, entries: seq<Entry>)
    requires Distinct(services) && AllListed(services, entries) && DistinctEntries(entries) && entries != []
    ensures var e := entries[|entries| - 1]; var before := entries[..|entries| - 1];
      RowSum(RowAt(services, entries, e.t), services)
      == RowSum(RowAt(services, before, e.t), services) + if e.service == "__proto__" then 0 else e.count
  {
    var last := |entries| - 1;
    var e := entries[last];
    UnsetCell(services, entries[..last], e.t, e.service);
    SetCellAdds(RowAt(services, entries[..last], e.t), services, e.service, e.count);
  }

  lemma {:induction false} GridGrows(services: seq<string>, entries: seq<Entry>, times: seq<int>)
    requires Distinct(services) && AllListed(services, entries) && DistinctEntries(entries) && entries != []
    requires forall i, j :: 0 <= i < j < |times| ==> times[i] != times[j]
    requires entries[|entries| - 1].t in times
    ensures var e := entries[|entries| - 1];
      GridSum(services, entries, times)
      == GridSum(services, entries[..|entries| - 1], times) + if e.service == "__proto__" then 0 else e.count
  {
    if times[0] == entries[|entries| - 1].t {
      NewestRowGrows(services, entries);
      OtherTimesUntouched(services, entries, times[1..]);
    } else {
      GridGrows(services, entries, times[1..]);
    }
  }

  /** The grid adds up to the entries it can show. */
  lemma {:induction false} GridTotal(services: seq<string>, entries: seq<Entry>)
    requires Distinct(services) && AllListed(services, entries) && DistinctEntries(entries)
    ensures GridSum(services, entries, TimesOf(entries)) + HiddenSum(entries) == EntrySum(entries)
  {
    if entries != [] {
      var last := |entries| - 1;
      var before := entries[..last];
      GridTotal(services, before);
      TimesAreDistinct(entries);
      GridGrows(services, entries, TimesOf(entries));
      if entries[last].t !in TimesOf(before) {
        StrangerIsBlank(services, before, entries[last].t);
        BlankRowSum(services, services, entries[last].t);
        GridSumAppend(services, before, TimesOf(before), entries[last].t);
      }
    }
  }

  lemma {:induction false} GridSumInsert(services: seq<string>, entries: seq<Entry>, t: int, times: seq<int>)
    ensures GridSum(services, entries, Insert(EarlierTime, t, times))
            == RowSum(RowAt(services, entries, t), services) + GridSum(services, entries, times)
  {
    if times != [] && !EarlierTime(t, times[0]) {
      GridSumInsert(services, entries, t, times[1..]);
    }
  }

  lemma {:induction false} GridSumSort(services: seq<string>, entries: seq<Entry>, times: seq<int>)
    ensures GridSum(services, entries, Sort(EarlierTime, times)) == GridSum(services, entries, times)
  {
    if times != [] {
      GridSumSort(services, entries, times[1..]);
      GridSumInsert(services, entries, times[0], Sort(EarlierTime, times[1..]));
    }
  }

  lemma {:induction false} CellSumIsGridSum(services: seq<string>, entries: seq<Entry>, times: seq<int>)
    ensures CellSum(RowsAt(services, entries, times), services) == GridSum(services, entries, times)
  {
    if times != [] {
      assert RowsAt(services, entries, times)[1..] == RowsAt(services, entries, times[1..]);
      CellSumIsGridSum(services, entries, times[1..]);
    }
  }

  // ---------------------------------------------------------------- from the series

  lemma {:induction false} EntrySumAppend(a: seq<Entry>, b: seq<Entry>)
    ensures EntrySum(a + b) == EntrySum(a) + EntrySum(b)
  {
    if b == [] {
      assert a + b == a;
    } else {
      assert (a + b)[..|a + b| - 1] == a + b[..|b| - 1];
      EntrySumAppend(a, b[..|b| - 1]);
    }
  }

  lemma {:induction false} EntrySumOfSeries(s: Series, n: nat)
    requires n <= |s.buckets|
    ensures EntrySum(EntriesOf(s, n)) == CountSum(s.buckets[..n])
  {
    if n > 0 {
      EntrySumOfSeries(s, n - 1);
      assert s.buckets[..n][..n - 1] == s.buckets[..n - 1];
      assert EntriesOf(s, n)[..|EntriesOf(s, n)| - 1] == EntriesOf(s, n - 1);
    }
  }

  lemma {:induction false} EntrySumIsTotal(stats: seq<Series>)
    ensures EntrySum(Entries(stats)) == TotalErrorsInRange(stats)
  {
    if stats != [] {
      var last := stats[|stats| - 1];
      EntrySumIsTotal(stats[..|stats| - 1]);
      EntrySumOfSeries(last, |last.buckets|);
      assert last.buckets[..|last.buckets|] == last.buckets;
      EntrySumAppend(Entries(stats[..|stats| - 1]), EntriesOf(last, |last.buckets|));
    }
  }

  lemma {:induction false} HiddenAppend(a: seq<Entry>, b: seq<Entry>)
    ensures HiddenSum(a + b) == HiddenSum(a) + HiddenSum(b)
  {
    if b == [] {
      assert a + b == a;
    } else {
      assert (a + b)[..|a + b| - 1] == a + b[..|b| - 1];
      HiddenAppend(a, b[..|b| - 1]);
    }
  }

  lemma {:induction false} HiddenOfSeries(s: Series, n: nat)
    requires n <= |s.buckets|
    ensures HiddenSum(EntriesOf(s, n)) == if s.service == "__proto__" then CountSum(s.buckets[..n]) else 0
  {
    if n > 0 {
      HiddenOfSeries(s, n - 1);
      assert s.buckets[..n][..n - 1] == s.buckets[..n - 1];
      assert EntriesOf(s, n)[..|EntriesOf(s, n)| - 1] == EntriesOf(s, n - 1);
    }
  }

  lemma HiddenGrows(stats: seq<Series>)
    requires stats != []
    ensures var last := stats[|stats| - 1];
      HiddenSum(Entries(stats))
      == HiddenSum(Entries(stats[..|stats| - 1])) + if last.service == "__proto__" then CountSum(last.buckets) else 0
  {
    var last := stats[|stats| - 1];
    HiddenOfSeries(last, |last.buckets|);
    assert last.buckets[..|last.buckets|] == last.buckets;
    HiddenAppend(Entries(stats[..|stats| - 1]), EntriesOf(last, |last.buckets|));
  }

  /** Nothing is hidden when no series of the prototype name has errors. */
  lemma {:induction false} HiddenIsPrototype(stats: seq<Series>)
    ensures HiddenSum(Entries(stats)) == 0
            <==> forall k :: 0 <= k < |stats| && stats[k].service == "__proto__" ==> CountSum(stats[k].buckets) == 0
  {
    if stats != [] {
      var last := |stats| - 1;
      HiddenIsPrototype(stats[..last]);
      HiddenGrows(stats);
      assert forall k :: 0 <= k < last ==> stats[..last][k] == stats[k];
    }
  }

  /** Does sorting the rows throw? A service takes the place of the time, and there are two rows to compare. */
  ghost predicate SortThrows(stats: seq<Series>) {
    "t" in NamesOf(stats) && exists t, u :: HasTime(stats, t) && HasTime(stats, u) && t < u
  }

  lemma TwoTimes(stats: seq<Series>)
    ensures |TimesOf(Entries(stats))| >= 2 <==> exists t, u :: HasTime(stats, t) && HasTime(stats, u) && t < u
  {
    var times := TimesOf(Entries(stats));
    TimesAreDistinct(Entries(stats));
    forall t ensures t in times <==> HasTime(stats, t) {
      TimesOfStats(stats, t);
    }
    if |times| >= 2 {
      var t, u := times[0], times[1];
      assert t in times && u in times && t != u;
      assert HasTime(stats, if t < u then t else u) && HasTime(stats, if t < u then u else t);
    }
    forall t, u | HasTime(stats, t) && HasTime(stats, u) && t < u ensures |times| >= 2 {
      assert t in times && u in times;
    }
  }

  lemma PivotsUnlessThrows(stats: seq<Series>)
    ensures PivotOf(stats).Pivoted? <==> !SortThrows(stats)
  {
    PivotByName(stats);
    SortedNames(stats);
    TwoTimes(stats);
  }

  lemma CellsAddUp(stats: seq<Series>)
    requires UniqueServices(stats) && forall k :: 0 <= k < |stats| ==> Ascending(stats[k].buckets)
    requires PivotOf(stats).Pivoted?
    ensures CellSum(PivotOf(stats).rows, PivotOf(stats).services) + HiddenSum(Entries(stats)) == TotalErrorsInRange(stats)
  {
    var services := Sort(StringLe, NamesOf(stats));
    var entries := Entries(stats);
    PivotByName(stats);
    SortedNames(stats);
    SeriesEntriesDistinct(stats);
    EntrySumIsTotal(stats);
    GridTotal(services, entries);
    GridSumSort(services, entries, TimesOf(entries));
    CellSumIsGridSum(services, entries, TimesOf(entries));
    CellSumIsGridSum(services, entries, Sort(EarlierTime, TimesOf(entries)));
  }

  /**
   The total through the pivot. For unique services with distinct bucket times, the cells of the chart add up to the total
   of the series exactly when the sort does not throw and no error sits under the one name an object cannot hold.
   */
  lemma PivotKeepsTotalExactly(stats: seq<Series>)
    requires UniqueServices(stats) && forall k :: 0 <= k < |stats| ==> Ascending(stats[k].buckets)
    ensures PivotOf(stats).Pivoted? && CellSum(PivotOf(stats).rows, PivotOf(stats).services) == TotalErrorsInRange(stats)
            <==> && !SortThrows(stats)
                 && forall k :: 0 <= k < |stats| && stats[k].service == "__proto__" ==> CountSum(stats[k].buckets) == 0
  {
    PivotsUnlessThrows(stats);
    HiddenIsPrototype(stats);
    if PivotOf(stats).Pivoted? {
      CellsAddUp(stats);
    }
  }

  /** A service named "t" with two buckets makes the sort throw. */
  lemma TimeNameThrows(t: int, u: int)
    requires t < u
    ensures PivotOf([Series("t", [Bucket(t, 1), Bucket(u, 1)])]) == TypeError
  {
    var one := [Series("t", [Bucket(t, 1), Bucket(u, 1)])];
    SortedNames(one);
    assert NamesOf(one)[0] == "t";
    EntriesAreBuckets(one, Entry("t", t, 1));
    assert Lists(one, 0, 0, Entry("t", t, 1));
    EntriesAreBuckets(one, Entry("t", u, 1));
    assert Lists(one, 0, 1, Entry("t", u, 1));
    TimesAreDistinct(Entries(one));
    assert Entry("t", t, 1).t == t && Entry("t", u, 1).t == u;
    assert t in TimesOf(Entries(one)) && u in TimesOf(Entries(one));
    var i :| 0 <= i < |TimesOf(Entries(one))| && TimesOf(Entries(one))[i] == t;
    var j :| 0 <= j < |TimesOf(Entries(one))| && TimesOf(Entries(one))[j] == u;
    assert i != j;
  }

  /** The errors of a service under the prototype name vanish from the chart. */
  lemma PrototypeNameHides(t: int, n: nat)
    ensures var p := PivotOf([Series("__proto__", [Bucket(t, n)])]);
      p.Pivoted? && CellSum(p.rows, p.services) == 0
  {
    var one := [Series("__proto__", [Bucket(t, n)])];
    var entries := Entries(one);
    SortedNames(one);
    assert NamesOf(one) == ["__proto__"];
    assert one[..0] == [];
    EntriesOfSeries(one[0], 1);
    assert Entries(one[..0]) == [];
    assert entries == [Entry("__proto__", t, n)] by {
      assert entries == Entries(one[..0]) + EntriesOf(one[0], 1);
    }
    assert entries[..0] == [];
    assert EntrySum(entries) == HiddenSum(entries);
    SeriesEntriesDistinct(one);
    var services := Sort(StringLe, NamesOf(one));
    GridTotal(services, entries);
    GridSumSort(services, entries, TimesOf(entries));
    CellSumIsGridSum(services, entries, Sort(EarlierTime, TimesOf(entries)));
  }
}
