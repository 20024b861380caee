/**
 The pivot of the series into chart rows. A row is a JavaScript object: the bucket time under "t" and one cell per
 service, all properties of the same object, so two service names are special and are modelled as they behave.
 */
module Chart {
  import opened Common
  import opened Sorting
  import opened Dashboard

  datatype Cell = Time(t: int) | Number(n: nat)

  type ChartRow = map<string, Cell>

  /** Property assignment; assigning a primitive to "__proto__" does nothing. */
  function Assign(row: ChartRow, name: string, cell: Cell): ChartRow {
    if name == "__proto__" then row else row[name := cell]
  }

  function AssignZeros(row: ChartRow, services: seq<string>): ChartRow {
    if services == [] then row
    else Assign(AssignZeros(row, services[..|services| - 1]), services[|services| - 1], Number(0))
  }

  /** A fresh row: its time, then a zero for every service. */
  function BlankRow(services: seq<string>, t: int): ChartRow {
    AssignZeros(map["t" := Time(t)], services)
  }

  /** The buckets of all series, one after the other. */
  datatype Entry = Entry(service: string, t: int, count: nat)

  function EntriesOf(s: Series, n: nat): seq<Entry>
    requires n <= |s.buckets|
  {
    if n == 0 then [] else EntriesOf(s, n - 1) + [Entry(s.service, s.buckets[n - 1].t, s.buckets[n - 1].count)]
  }

  function Entries(stats: seq<Series>): seq<Entry> {
    if stats == [] then []
    else
      var last := stats[|stats| - 1];
      Entries(stats[..|stats| - 1]) + EntriesOf(last, |last.buckets|)
  }

  /** The bucket times in the order of their first entry. */
  function TimesOf(entries: seq<Entry>): seq<int> {
    if entries == [] then []
    else
      var before := TimesOf(entries[..|entries| - 1]);
      var t := entries[|entries| - 1].t;
      if t in before then before else before + [t]
  }

  /** The row of time `t` after the entries. */
  function RowAt(services: seq<string>, entries: seq<Entry>, t: int): ChartRow {
    if entries == [] then BlankRow(services, t)
    else
      var before := RowAt(services, entries[..|entries| - 1], t);
      var e := entries[|entries| - 1];
      if e.t == t then Assign(before, e.service, Number(e.count)) else before
  }

  function RowsAt(services: seq<string>, entries: seq<Entry>, times: seq<int>): (r: seq<ChartRow>)
    ensures |r| == |times|
    ensures forall i :: 0 <= i < |r| ==> r[i] == RowAt(services, entries, times[i])
  {
    seq(|times|, i requires 0 <= i < |times| => RowAt(services, entries, times[i]))
  }

  function NamesOf(stats: seq<Series>): (r: seq<string>)
    ensures |r| == |stats| && forall i :: 0 <= i < |r| ==> r[i] == stats[i].service
  {
    seq(|stats|, i requires 0 <= i < |stats| => stats[i].service)
  }

  /** The time a row is sorted by; a row whose "t" was overwritten has none. */
  function SortKey(row: ChartRow): Option<int> {
    if "t" in row && row["t"].Time? then Some(row["t"].t) else None
  }

  predicate EarlierRow(a: ChartRow, b: ChartRow) {
    SortKey(a).Some? && SortKey(b).Some? ==> SortKey(a).value <= SortKey(b).value
  }

  predicate EarlierTime(a: int, b: int) {
    a <= b
  }

  datatype Pivot = Pivoted(rows: seq<ChartRow>, services: seq<string>) | TypeError

  /**
   The last statement of `pivotStats`. Two rows or more are compared by `t`, and a comparison throws on a row whose `t` is a
   number; a single row is not compared.
   */
  function SortRows(rows: seq<ChartRow>, services: seq<string>): Pivot {
    if |rows| >= 2 && exists i :: 0 <= i < |rows| && SortKey(rows[i]).None? then TypeError
    else Pivoted(Sort(EarlierRow, rows), services)
  }

  function PivotOf(stats: seq<Series>): Pivot {
    var services := Sort(StringLe, NamesOf(stats));
    var entries := Entries(stats);
    SortRows(RowsAt(services, entries, TimesOf(entries)), services)
  }

  /** The JavaScript Map of rows with its insertion order. */
  datatype RowMap = RowMap(order: seq<int>, byTime: map<int, ChartRow>)

  /** One bucket: the row is made if its time is new, then its cell is set. */
  function FillCell(services: seq<string>, m: RowMap, e: Entry): RowMap {
    var rows := if e.t in m.byTime then m.byTime else m.byTime[e.t := BlankRow(services, e.t)];
    RowMap(if e.t in m.byTime then m.order else m.order + [e.t], rows[e.t := Assign(rows[e.t], e.service, Number(e.count))])
  }

  function Filled(services: seq<string>, entries: seq<Entry>): RowMap {
    if entries == [] then RowMap([], map[])
    else FillCell(services, Filled(services, entries[..|entries| - 1]), entries[|entries| - 1])
  }

  /** The outer loop of `pivotStats`: the map of rows is filled in place and keeps its insertion order. */
  method FillRows(stats: seq<Series>, services: seq<string>) returns (order: seq<int>, byTime: map<int, ChartRow>)
    ensures HoldsRows(services, Entries(stats), order, byTime)
  {
    order, byTime := [], map[];
    for i := 0 to |stats|
      invariant RowMap(order, byTime) == Filled(services, Entries(stats[..i]))
    {
      SeriesAppends(stats, i);
      order, byTime := FillSeries(services, stats[i], Entries(stats[..i]), order, byTime);
    }
    assert stats[..|stats|] == stats;
    FilledHoldsRows(services, Entries(stats));
  }

  /** The inner loop, over the buckets of one series. */
  method FillSeries(services: seq<string>, s: Series, ghost done: seq<Entry>, before: seq<int>, rows: map<int, ChartRow>)
    returns (order: seq<int>, byTime: map<int, ChartRow>)
    requires RowMap(before, rows) == Filled(services, done)
    ensures RowMap(order, byTime) == Filled(services, done + EntriesOf(s, |s.buckets|))
  {
    order, byTime := before, rows;
    assert done + EntriesOf(s, 0) == done;
    for j := 0 to |s.buckets|
      invariant RowMap(order, byTime) == Filled(services, done + EntriesOf(s, j))
    {
      var b := s.buckets[j];
      FillNext(services, done, s, j);
      if b.t !in byTime {
        order := order + [b.t];
        byTime := byTime[b.t := BlankRow(services, b.t)];
      }
      byTime := byTime[b.t := Assign(byTime[b.t], s.service, Number(b.count))];
    }
  }

  lemma FillNext(services: seq<string>, done: seq<Entry>, s: Series, j: nat)
    requires j < |s.buckets|
    ensures Filled(services, done + EntriesOf(s, j + 1))
            == FillCell(services, Filled(services, done + EntriesOf(s, j)), Entry(s.service, s.buckets[j].t, s.buckets[j].count))
  {
    var e := Entry(s.service, s.buckets[j].t, s.buckets[j].count);
    var all := done + EntriesOf(s, j) + [e];
    assert all == done + EntriesOf(s, j + 1);
    assert all[..|all| - 1] == done + EntriesOf(s, j);
  }

  lemma SeriesAppends(stats: seq<Series>, i: nat)
    requires i < |stats|
    ensures Entries(stats[..i]) + EntriesOf(stats[i], 0) == Entries(stats[..i])
    ensures Entries(stats[..i]) + EntriesOf(stats[i], |stats[i].buckets|) == Entries(stats[..i + 1])
  {
    assert stats[..i + 1][..i] == stats[..i];
  }

  /** The whole of `pivotStats`: names, rows in insertion order, and the sort, which throws on a number in place of a time. */
  method PivotStats(stats: seq<Series>) returns (p: Pivot)
    ensures p == PivotOf(stats)
  {
    var services := Sort(StringLe, NamesOf(stats));
    var order, byTime := FillRows(stats, services);
    forall i | 0 <= i < |order| ensures order[i] in byTime {
      var t := order[i];
      assert t in order;
    }
    var rows := InOrder(order, byTime);
    assert rows == RowsAt(services, Entries(stats), order);
    p := SortRows(rows, services);
  }

  /** The values of the map in insertion order. */
  function InOrder(order: seq<int>, byTime: map<int, ChartRow>): (r: seq<ChartRow>)
    requires forall i :: 0 <= i < |order| ==> order[i] in byTime
    ensures |r| == |order| && forall i :: 0 <= i < |r| ==> r[i] == byTime[order[i]]
  {
    seq(|order|, i requires 0 <= i < |order| => byTime[order[i]])
  }

  /** The map holds exactly the times of `done`, in order of appearance, each with the row its entries give. */
  ghost predicate HoldsRows(services: seq<string>, done: seq<Entry>, order: seq<int>, byTime: map<int, ChartRow>) {
    && order == TimesOf(done)
    && (forall t :: t in byTime <==> t in order)
    && (forall t :: t in byTime ==> byTime[t] == RowAt(services, done, t))
  }

  lemma CellHoldsRows(services: seq<string>, done: seq<Entry>, m: RowMap, e: Entry)
    requires HoldsRows(services, done, m.order, m.byTime)
    ensures HoldsRows(services, done + [e], FillCell(services, m, e).order, FillCell(services, m, e).byTime)
  {
    assert (done + [e])[..|done|] == done;
    if e.t !in m.byTime {
      StrangerIsBlank(services, done, e.t);
    }
  }

  lemma {:induction false} FilledHoldsRows(services: seq<string>, entries: seq<Entry>)
    ensures HoldsRows(services, entries, Filled(services, entries).order, Filled(services, entries).byTime)
  {
    if entries != [] {
      var last := |entries| - 1;
      FilledHoldsRows(services, entries[..last]);
      CellHoldsRows(services, entries[..last], Filled(services, entries[..last]), entries[last]);
      assert entries == entries[..last] + [entries[last]];
    }
  }

  lemma {:induction false} StrangerIsBlank(services: seq<string>, entries: seq<Entry>, t: int)
    requires t !in TimesOf(entries)
    ensures RowAt(services, entries, t) == BlankRow(services, t)
  {
    if entries != [] {
      StrangerIsBlank(services, entries[..|entries| - 1], t);
    }
  }

  // ---------------------------------------------------------------- the times of the rows

  lemma {:induction false} EntriesOfSeries(s: Series, n: nat)
    requires n <= |s.buckets|
    ensures |EntriesOf(s, n)| == n
    ensures forall i :: 0 <= i < n ==> EntriesOf(s, n)[i] == Entry(s.service, s.buckets[i].t, s.buckets[i].count)
  {
    if n > 0 {
      EntriesOfSeries(s, n - 1);
    }
  }

  predicate Lists(stats: seq<Series>, k: int, i: int, e: Entry) {
    0 <= k < |stats| && 0 <= i < |stats[k].buckets|
    && e == Entry(stats[k].service, stats[k].buckets[i].t, stats[k].buckets[i].count)
  }

  /** The entries are the buckets of the series. */
  lemma {:induction false} EntriesAreBuckets(stats: seq<Series>, e: Entry)
    ensures e in Entries(stats) <==> exists k, i :: Lists(stats, k, i, e)
  {
    if stats != [] {
      var last := |stats| - 1;
      var before := stats[..last];
      EntriesAreBuckets(before, e);
      EntriesOfSeries(stats[last], |stats[last].buckets|);
      if e in Entries(before) {
        var k, i :| Lists(before, k, i, e);
        assert Lists(stats, k, i, e);
      } else if e in EntriesOf(stats[last], |stats[last].buckets|) {
        var i :| 0 <= i < |stats[last].buckets| && EntriesOf(stats[last], |stats[last].buckets|)[i] == e;
        assert Lists(stats, last, i, e);
      }
      if k, i :| Lists(stats, k, i, e) {
        if k < last {
          assert Lists(before, k, i, e);
        } else {
          assert EntriesOf(stats[last], |stats[last].buckets|)[i] == e;
        }
      }
    }
  }

  lemma {:induction false} TimesAreDistinct(entries: seq<Entry>)
    ensures forall i, j :: 0 <= i < j < |TimesOf(entries)| ==> TimesOf(entries)[i] != TimesOf(entries)[j]
    ensures forall t :: t in TimesOf(entries) <==> exists e :: e in entries && e.t == t
  {
    if entries != [] {
      var last := |entries| - 1;
      var before := entries[..last];
      TimesAreDistinct(before);
      forall t ensures t in TimesOf(entries) <==> exists e :: e in entries && e.t == t {
        assert entries == before + [entries[last]];
        if t in TimesOf(entries) {
          if t in TimesOf(before) {
            var e :| e in before && e.t == t;
            assert e in entries;
          } else {
            assert entries[last] in entries;
          }
        }
      }
    }
  }

  ghost predicate AllListed(services: seq<string>, entries: seq<Entry>) {
    forall i :: 0 <= i < |entries| ==> entries[i].service in services
  }

  lemma SortedNames(stats: seq<Series>)
    ensures forall s :: s in Sort(StringLe, NamesOf(stats)) <==> s in NamesOf(stats)
    ensures AllListed(Sort(StringLe, NamesOf(stats)), Entries(stats))
    ensures UniqueServices(stats) ==> Distinct(Sort(StringLe, NamesOf(stats)))
  {
    var names := NamesOf(stats);
    var services := Sort(StringLe, names);
    forall s ensures s in services <==> s in names {
      assert s in services <==> s in multiset(services);
      assert s in names <==> s in multiset(names);
    }
    forall i | 0 <= i < |Entries(stats)| ensures Entries(stats)[i].service in services {
      EntriesAreBuckets(stats, Entries(stats)[i]);
      var k, j :| Lists(stats, k, j, Entries(stats)[i]);
      assert names[k] == stats[k].service;
    }
    if UniqueServices(stats) {
      DistinctAsMultiset(names);
      DistinctAsMultiset(services);
    }
  }

  lemma {:induction false} DistinctAsMultiset(xs: seq<string>)
    ensures Distinct(xs) <==> forall x :: multiset(xs)[x] <= 1
  {
    if xs != [] {
      var last := |xs| - 1;
      var before := xs[..last];
      DistinctAsMultiset(before);
      assert xs == before + [xs[last]];
      if xs[last] in before {
        var i :| 0 <= i < last && before[i] == xs[last];
        assert xs[i] == xs[last];
        assert multiset(xs)[xs[last]] >= 2;
      } else {
        assert Distinct(before) ==> Distinct(xs);
        assert Distinct(xs) ==> Distinct(before);
        assert forall x :: multiset(xs)[x] == multiset(before)[x] + if x == xs[last] then 1 else 0;
      }
    }
  }

  lemma {:induction false} BlankKeepsTime(services: seq<string>, t: int)
    requires "t" !in services
    ensures "t" in BlankRow(services, t) && BlankRow(services, t)["t"] == Time(t)
  {
    if services != [] {
      BlankKeepsTime(services[..|services| - 1], t);
    }
  }

  lemma {:induction false} RowKeepsTime(services: seq<string>, entries: seq<Entry>, t: int)
    requires "t" !in services && AllListed(services, entries)
    ensures "t" in RowAt(services, entries, t) && RowAt(services, entries, t)["t"] == Time(t)
  {
    if entries == [] {
      BlankKeepsTime(services, t);
    } else {
      RowKeepsTime(services, entries[..|entries| - 1], t);
    }
  }

  /** Sorting the rows by their "t" is sorting their times. */
  lemma RowsSortByTime(services: seq<string>, entries: seq<Entry>, times: seq<int>)
    requires "t" !in services && AllListed(services, entries)
    ensures Sort(EarlierRow, RowsAt(services, entries, times)) == RowsAt(services, entries, Sort(EarlierTime, times))
  {
    var row := (t: int) => RowAt(services, entries, t);
    forall t, u ensures SameOrder(EarlierTime, EarlierRow, row, t, u) {
      RowKeepsTime(services, entries, t);
      RowKeepsTime(services, entries, u);
    }
    SortCommutes(EarlierTime, EarlierRow, row, times);
    assert Mapped(row, times) == RowsAt(services, entries, times);
    assert Mapped(row, Sort(EarlierTime, times)) == RowsAt(services, entries, Sort(EarlierTime, times));
  }

  lemma {:induction false} BlankLosesTime(services: seq<string>, t: int)
    requires "t" in services
    ensures "t" in BlankRow(services, t) && BlankRow(services, t)["t"].Number?
  {
    var last := |services| - 1;
    if services[last] != "t" {
      BlankLosesTime(services[..last], t);
    }
  }

  /** A service named "t" takes the place of the time in every row, from its first zero on. */
  lemma {:induction false} RowLosesTime(services: seq<string>, entries: seq<Entry>, t: int)
    requires "t" in services
    ensures "t" in RowAt(services, entries, t) && RowAt(services, entries, t)["t"].Number?
    ensures SortKey(RowAt(services, entries, t)).None?
  {
    if entries == [] {
      BlankLosesTime(services, t);
    } else {
      RowLosesTime(services, entries[..|entries| - 1], t);
    }
  }

  /** The outcome by name: all rows have their time or none has, so which comparison comes first does not matter. */
  lemma PivotByName(stats: seq<Series>)
    ensures var services, entries := Sort(StringLe, NamesOf(stats)), Entries(stats);
      if "t" !in services then PivotOf(stats) == Pivoted(RowsAt(services, entries, Sort(EarlierTime, TimesOf(entries))), services)
      else if |TimesOf(entries)| >= 2 then PivotOf(stats) == TypeError
      else PivotOf(stats) == Pivoted(RowsAt(services, entries, TimesOf(entries)), services)
  {
    var services, entries := Sort(StringLe, NamesOf(stats)), Entries(stats);
    var times := TimesOf(entries);
    var rows := RowsAt(services, entries, times);
    SortedNames(stats);
    if "t" in services {
      if |times| >= 2 {
        RowLosesTime(services, entries, times[0]);
        assert SortKey(rows[0]).None?;
      } else {
        ShortSort(EarlierRow, rows);
      }
    } else {
      forall i | 0 <= i < |rows| ensures SortKey(rows[i]).Some? {
        RowKeepsTime(services, entries, times[i]);
      }
      RowsSortByTime(services, entries, times);
    }
  }

  /** The rows of the chart are those of the bucket times in some order. */
  lemma PivotRows(stats: seq<Series>) returns (times: seq<int>)
    requires PivotOf(stats).Pivoted?
    ensures multiset(times) == multiset(TimesOf(Entries(stats)))
    ensures PivotOf(stats).services == Sort(StringLe, NamesOf(stats))
    ensures PivotOf(stats).rows == RowsAt(PivotOf(stats).services, Entries(stats), times)
  {
    PivotByName(stats);
    times := TimesOf(Entries(stats));
    if "t" !in Sort(StringLe, NamesOf(stats)) {
      times := Sort(EarlierTime, times);
    }
  }

  ghost predicate NamesAscend(names: seq<string>) {
    forall i, j :: 0 <= i < j < |names| ==> NameBefore(names[i], names[j])
  }

  /** A name comes before another as a prefix of it, or by the first code unit that differs. */
  ghost predicate NameBefore(a: string, b: string) {
    CodeUnits(a) <= CodeUnits(b) || exists k :: FirstDifference(CodeUnits(a), CodeUnits(b), k)
  }

  /** The services of the chart are those of the series, by name. */
  lemma PivotNames(stats: seq<Series>)
    requires PivotOf(stats).Pivoted?
    ensures multiset(PivotOf(stats).services) == multiset(NamesOf(stats))
    ensures NamesAscend(PivotOf(stats).services)
  {
    var services := Sort(StringLe, NamesOf(stats));
    StringLeIsTotalPreorder();
    SortSorts(StringLe, NamesOf(stats));
    forall i, j | 0 <= i < j < |services| ensures NameBefore(services[i], services[j]) {
      StringOrder(services[i], services[j]);
    }
  }

  ghost predicate HasTime(stats: seq<Series>, t: int) {
    exists k, i :: 0 <= k < |stats| && 0 <= i < |stats[k].buckets| && stats[k].buckets[i].t == t
  }

  lemma TimesOfStats(stats: seq<Series>, t: int)
    ensures t in TimesOf(Entries(stats)) <==> HasTime(stats, t)
  {
    TimesAreDistinct(Entries(stats));
    if t in TimesOf(Entries(stats)) {
      var e :| e in Entries(stats) && e.t == t;
      EntriesAreBuckets(stats, e);
      var k, i :| Lists(stats, k, i, e);
      assert stats[k].buckets[i].t == t;
    }
    if HasTime(stats, t) {
      var k, i :| 0 <= k < |stats| && 0 <= i < |stats[k].buckets| && stats[k].buckets[i].t == t;
      var e := Entry(stats[k].service, t, stats[k].buckets[i].count);
      EntriesAreBuckets(stats, e);
      assert Lists(stats, k, i, e);
    }
  }

  // ---------------------------------------------------------------- the cells

  /** A cell as the chart reads it: a property that is missing or no number shows nothing. */
  function CellOf(row: ChartRow, name: string): nat {
    if name in row && row[name].Number? then row[name].n else 0
  }

  /** Two buckets of one service never share a time. */
  ghost predicate DistinctEntries(entries: seq<Entry>) {
    forall i, j :: 0 <= i < j < |entries| && entries[i].service == entries[j].service ==> entries[i].t != entries[j].t
  }

  lemma {:induction false} BlankShowsNothing(services: seq<string>, t: int, name: string)
    ensures CellOf(BlankRow(services, t), name) == 0
    ensures "__proto__" !in BlankRow(services, t)
  {
    if services != [] {
      BlankShowsNothing(services[..|services| - 1], t, name);
    }
  }

  lemma {:induction false} NoPrototypeCell(services: seq<string>, entries: seq<Entry>, t: int)
    ensures "__proto__" !in RowAt(services, entries, t)
  {
    if entries == [] {
      BlankShowsNothing(services, t, "");
    } else {
      NoPrototypeCell(services, entries[..|entries| - 1], t);
    }
  }

  /** A cell that no entry has set shows nothing. */
  lemma {:induction false} UnsetCell(services: seq<string>, entries: seq<Entry>, t: int, name: string)
    requires forall i :: 0 <= i < |entries| ==> !(entries[i].service == name && entries[i].t == t)
    ensures CellOf(RowAt(services, entries, t), name) == 0
  {
    if entries == [] {
      BlankShowsNothing(services, t, name);
    } else {
      UnsetCell(services, entries[..|entries| - 1], t, name);
    }
  }

  /** Entries of an earlier series name an earlier service. */
  lemma {:induction false} SeriesEntriesDistinct(stats: seq<Series>)
    requires UniqueServices(stats) && forall k :: 0 <= k < |stats| ==> Ascending(stats[k].buckets)
    ensures DistinctEntries(Entries(stats))
  {
    if stats != [] {
      var last := |stats| - 1;
      var before := stats[..last];
      SeriesEntriesDistinct(before);
      EntriesOfSeries(stats[last], |stats[last].buckets|);
      var a, b := Entries(before), EntriesOf(stats[last], |stats[last].buckets|);
      var all: seq<Entry> := a + b;
      forall i, j | 0 <= i < j < |all| && all[i].service == all[j].service ensures all[i].t != all[j].t {
        if i < |a| && j >= |a| {
          EntriesAreBuckets(before, a[i]);
          var k, m :| Lists(before, k, m, a[i]);
          assert false;
        }
      }
    }
  }
}
