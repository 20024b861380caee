/** The cooldown panel: remaining seconds interpolated between polls, and the rows in display order. */
module CooldownPanel {
  import opened Common
  import opened Sorting

  function Ceil(x: real): int {
    -((-x).Floor)
  }

  /** The remaining seconds at `now`, from the TTL that arrived at `fetchedAt`; times in milliseconds. */
  function CooldownRemaining(ttl: Option<int>, fetchedAt: int, now: int): Option<nat> {
    match ttl
    case None => None
    case Some(sec) =>
      var elapsed := (now - fetchedAt) as real / 1000.0;
      var left := Ceil(sec as real - elapsed);
      Some(if left > 0 then left else 0)
  }

  /** Null for null; otherwise never negative, positive exactly before expiry, and less than a second above the true rest. */
  lemma RemainingInterpolates(ttl: Option<int>, fetchedAt: int, now: int)
    ensures CooldownRemaining(ttl, fetchedAt, now).None? <==> ttl.None?
    ensures ttl.Some? ==>
      var left := CooldownRemaining(ttl, fetchedAt, now).value;
      var rest := 1000 * ttl.value - (now - fetchedAt);
      && (left > 0 <==> rest > 0)
      && (rest >= 0 ==> rest <= 1000 * left < rest + 1000)
  {
  }

  /** Between two polls the panel counts down by one a second, and stops at zero. */
  lemma RemainingCountsDown(ttl: int, fetchedAt: int, now: int)
    ensures var left := CooldownRemaining(Some(ttl), fetchedAt, now).value;
      CooldownRemaining(Some(ttl), fetchedAt, now + 1000) == Some(if left > 0 then left - 1 else 0)
  {
  }

  lemma RemainingNeverGrows(ttl: int, fetchedAt: int, now: int, later: int)
    requires now <= later
    ensures CooldownRemaining(Some(ttl), fetchedAt, later).value <= CooldownRemaining(Some(ttl), fetchedAt, now).value
  {
  }

  // ---------------------------------------------------------------- the rows

  datatype ServiceStatus = ServiceStatus(service: string, cooldownTtlSec: Option<int>)
  datatype CooldownRow = CooldownRow(service: string, active: bool, remainingSec: Option<nat>, pct: real)

  /** The bar of an active row; dividing a positive number by zero gives infinity, which is cut to the full bar. */
  function BarOf(remaining: nat, fullSec: int): real
    requires remaining > 0
  {
    if fullSec == 0 then 100.0
    else
      var pct := remaining as real / fullSec as real * 100.0;
      if pct > 100.0 then 100.0 else if pct < 0.0 then 0.0 else pct
  }

  function RowOf(s: ServiceStatus, fetchedAt: int, now: int, fullSec: int): CooldownRow {
    var remaining := CooldownRemaining(s.cooldownTtlSec, fetchedAt, now);
    var active := remaining.Some? && remaining.value > 0;
    CooldownRow(s.service, active, remaining, if active then BarOf(remaining.value, fullSec) else 0.0)
  }

  /** The bar is the remaining part of the full duration in percent, cut at the full bar. */
  lemma BarShowsPart(remaining: nat, fullSec: int)
    requires remaining > 0
    ensures 0 < remaining <= fullSec ==> BarOf(remaining, fullSec) * fullSec as real == 100.0 * remaining as real
    ensures 0 <= fullSec < remaining ==> BarOf(remaining, fullSec) == 100.0
    ensures fullSec < 0 ==> BarOf(remaining, fullSec) == 0.0
  {
    if fullSec != 0 {
      PartOfFull(remaining, fullSec);
    }
  }

  lemma PartOfFull(remaining: nat, fullSec: int)
    requires remaining > 0 && fullSec != 0
    ensures var part := remaining as real / fullSec as real * 100.0;
      && part * fullSec as real == 100.0 * remaining as real
      && (0 < remaining <= fullSec ==> 0.0 < part <= 100.0)
      && (0 < fullSec < remaining ==> part > 100.0)
      && (fullSec < 0 ==> part < 0.0)
  {
  }

  /** What a row tells of its status: its service, the remaining seconds, and whether the time is still running. */
  lemma RowTellsStatus(s: ServiceStatus, fetchedAt: int, now: int, fullSec: int)
    ensures var row := RowOf(s, fetchedAt, now, fullSec);
      && row.service == s.service
      && (row.remainingSec.None? <==> s.cooldownTtlSec.None?)
      && (row.active <==> s.cooldownTtlSec.Some? && now - fetchedAt < 1000 * s.cooldownTtlSec.value)
      && (row.remainingSec.Some? && !row.active ==> row.remainingSec.value == 0)
      && (row.active ==>
            var left := row.remainingSec.value; var rest := 1000 * s.cooldownTtlSec.value - (now - fetchedAt);
            rest <= 1000 * left < rest + 1000 && row.pct == BarOf(left, fullSec))
      && (!row.active ==> row.pct == 0.0)
  {
    RemainingInterpolates(s.cooldownTtlSec, fetchedAt, now);
  }

  /** The result of `localeCompare`, whatever the locale: a consistent comparison of strings. */
  ghost predicate IsCollation(collate: (string, string) -> int) {
    && (forall a, b :: collate(a, b) < 0 <==> collate(b, a) > 0)
    && (forall a, b, c :: collate(a, b) <= 0 && collate(b, c) <= 0 ==> collate(a, c) <= 0)
  }

  function SecondsOf(row: CooldownRow): nat {
    if row.remainingSec.Some? then row.remainingSec.value else 0
  }

  function CompareRows(collate: (string, string) -> int, a: CooldownRow, b: CooldownRow): int {
    if a.active != b.active then if a.active then -1 else 1
    else if a.active then SecondsOf(b) - SecondsOf(a)
    else collate(a.service, b.service)
  }

  function RowOrder(collate: (string, string) -> int): (CooldownRow, CooldownRow) -> bool {
    (a, b) => CompareRows(collate, a, b) <= 0
  }

  function RowsOf(status: seq<ServiceStatus>, fetchedAt: int, now: int, fullSec: int): (r: seq<CooldownRow>)
    ensures |r| == |status| && forall i :: 0 <= i < |r| ==> r[i] == RowOf(status[i], fetchedAt, now, fullSec)
  {
    seq(|status|, i requires 0 <= i < |status| => RowOf(status[i], fetchedAt, now, fullSec))
  }

  function CooldownRows(collate: (string, string) -> int, status: Option<seq<ServiceStatus>>, fetchedAt: int, now: int,
                        fullSec: int): seq<CooldownRow> {
    Sort(RowOrder(collate), RowsOf(if status.Some? then status.value else [], fetchedAt, now, fullSec))
  }

  /** The comparator is consistent: antisymmetric in sign, and a total preorder. */
  lemma ComparatorIsConsistent(collate: (string, string) -> int)
    requires IsCollation(collate)
    ensures forall a, b :: CompareRows(collate, a, b) < 0 <==> CompareRows(collate, b, a) > 0
    ensures TotalPreorder(RowOrder(collate))
  {
  }

  function ActiveCount(rows: seq<CooldownRow>): nat {
    if rows == [] then 0 else (if rows[0].active then 1 else 0) + ActiveCount(rows[1..])
  }

  ghost predicate ActiveFirst(rows: seq<CooldownRow>, k: nat) {
    k <= |rows| && forall i :: 0 <= i < |rows| ==> (rows[i].active <==> i < k)
  }

  /** The display order: active rows first, longest remaining time first, then the others by name. */
  lemma PanelOrder(collate: (string, string) -> int, status: Option<seq<ServiceStatus>>, fetchedAt: int, now: int, fullSec: int)
    requires IsCollation(collate)
    ensures var rows := CooldownRows(collate, status, fetchedAt, now, fullSec);
      var k := ActiveCount(rows);
      && multiset(rows) == multiset(RowsOf(if status.Some? then status.value else [], fetchedAt, now, fullSec))
      && ActiveFirst(rows, k)
      && (forall i, j :: 0 <= i < j < k ==> SecondsOf(rows[i]) >= SecondsOf(rows[j]))
      && (forall i, j :: k <= i < j < |rows| ==> collate(rows[i].service, rows[j].service) <= 0)
  {
    var rows := CooldownRows(collate, status, fetchedAt, now, fullSec);
    ComparatorIsConsistent(collate);
    SortSorts(RowOrder(collate), RowsOf(if status.Some? then status.value else [], fetchedAt, now, fullSec));
    forall i, j | 0 <= i < j < |rows| ensures CompareRows(collate, rows[i], rows[j]) <= 0 {
      assert RowOrder(collate)(rows[i], rows[j]);
    }
    ActiveRowsLead(rows);
  }

  lemma {:induction false} ActiveRowsLead(rows: seq<CooldownRow>)
    requires forall i, j :: 0 <= i < j < |rows| ==> rows[j].active ==> rows[i].active
    ensures ActiveFirst(rows, ActiveCount(rows))
  {
    if rows != [] {
      var rest := rows[1..];
      ActiveRowsLead(rest);
      assert forall i :: 0 < i < |rows| ==> rows[i] == rest[i - 1];
    }
  }

  /**
   Between polls the active rows never change places: while two services are both active, their order is that of the TTLs
   that were fetched, at every tick.
   */
  lemma OrderIsThatOfTtls(collate: (string, string) -> int, a: ServiceStatus, b: ServiceStatus, fetchedAt: int, now: int, fullSec: int)
    requires RowOf(a, fetchedAt, now, fullSec).active && RowOf(b, fetchedAt, now, fullSec).active
    ensures CompareRows(collate, RowOf(a, fetchedAt, now, fullSec), RowOf(b, fetchedAt, now, fullSec))
            == b.cooldownTtlSec.value - a.cooldownTtlSec.value
  {
  }

  /**
   A row that has gone inactive stays so until the next poll, and its bar only shrinks. The bar shows exactly on active rows,
   unless it is measured against a negative duration, which leaves it empty.
   */
  lemma RowsOnlyCoolDown(s: ServiceStatus, fetchedAt: int, now: int, later: int, fullSec: int)
    requires now <= later
    ensures var a, b := RowOf(s, fetchedAt, now, fullSec), RowOf(s, fetchedAt, later, fullSec);
      && (b.active ==> a.active)
      && 0.0 <= b.pct <= a.pct <= 100.0
      && (b.pct > 0.0 <==> b.active && fullSec >= 0)
  {
    if s.cooldownTtlSec.Some? {
      RemainingNeverGrows(s.cooldownTtlSec.value, fetchedAt, now, later);
      var x := CooldownRemaining(s.cooldownTtlSec, fetchedAt, now).value;
      var y := CooldownRemaining(s.cooldownTtlSec, fetchedAt, later).value;
      BarGrows(y, x, fullSec);
    }
  }

  lemma BarGrows(y: nat, x: nat, fullSec: int)
    requires y <= x
    ensures 0 < y ==> 0.0 <= BarOf(y, fullSec) <= BarOf(x, fullSec) <= 100.0
    ensures 0 < x ==> 0.0 <= BarOf(x, fullSec) <= 100.0
    ensures 0 < y ==> (BarOf(y, fullSec) > 0.0 <==> fullSec >= 0)
  {
    if fullSec != 0 {
      BarOfPositive(y, x, fullSec);
    }
  }

  lemma BarOfPositive(y: nat, x: nat, fullSec: int)
    requires y <= x && fullSec != 0
    ensures fullSec > 0 ==> 0.0 <= y as real / fullSec as real <= x as real / fullSec as real
    ensures fullSec > 0 && y > 0 ==> y as real / fullSec as real > 0.0
    ensures fullSec < 0 && y > 0 ==> y as real / fullSec as real < 0.0
    ensures fullSec < 0 && x > 0 ==> x as real / fullSec as real < 0.0
  {
  }
}
