/** A stable sort by a comparison, as the arrays of the program are sorted, and what it keeps. */
module Sorting {

  ghost predicate TotalPreorder<T(!new)>(le: (T, T) -> bool) {
    && (forall x, y :: le(x, y) || le(y, x))
    && (forall x, y, z :: le(x, y) && le(y, z) ==> le(x, z))
  }

  ghost predicate SortedBy<T>(le: (T, T) -> bool, xs: seq<T>) {
    forall i, j :: 0 <= i < j < |xs| ==> le(xs[i], xs[j])
  }

  /** Puts `x`, which came first, before its equals. */
  function Insert<T>(le: (T, T) -> bool, x: T, xs: seq<T>): (r: seq<T>)
    ensures multiset(r) == multiset{x} + multiset(xs)
    ensures |r| == |xs| + 1
  {
    if xs == [] || le(x, xs[0]) then
      assert multiset([x] + xs) == multiset{x} + multiset(xs);
      [x] + xs
    else
      assert xs == [xs[0]] + xs[1..];
      [xs[0]] + Insert(le, x, xs[1..])
  }

  function Sort<T>(le: (T, T) -> bool, xs: seq<T>): (r: seq<T>)
    ensures multiset(r) == multiset(xs)
    ensures |r| == |xs|
  {
    if xs == [] then []
    else
      assert xs == [xs[0]] + xs[1..];
      Insert(le, xs[0], Sort(le, xs[1..]))
  }

  lemma {:induction false} InsertKeepsSorted<T(!new)>(le: (T, T) -> bool, x: T, xs: seq<T>)
    requires TotalPreorder(le) && SortedBy(le, xs)
    ensures SortedBy(le, Insert(le, x, xs))
  {
    if xs != [] && !le(x, xs[0]) {
      var rest := Insert(le, x, xs[1..]);
      InsertKeepsSorted(le, x, xs[1..]);
      forall j | 0 <= j < |rest| ensures le(xs[0], rest[j]) {
        assert rest[j] in multiset(rest);
        assert rest[j] == x || rest[j] in xs[1..];
      }
    } else if xs != [] {
      forall j | 0 <= j < |xs| ensures le(x, xs[j]) {
        assert le(x, xs[0]) && (j > 0 ==> le(xs[0], xs[j]));
      }
    }
  }

  lemma {:induction false} SortSorts<T(!new)>(le: (T, T) -> bool, xs: seq<T>)
    requires TotalPreorder(le)
    ensures SortedBy(le, Sort(le, xs))
  {
    if xs != [] {
      SortSorts(le, xs[1..]);
      InsertKeepsSorted(le, xs[0], Sort(le, xs[1..]));
    }
  }

  lemma ShortSort<T>(le: (T, T) -> bool, xs: seq<T>)
    requires |xs| <= 1
    ensures Sort(le, xs) == xs
  {
  }

  function Mapped<A, B>(f: A -> B, xs: seq<A>): (r: seq<B>)
    ensures |r| == |xs| && forall i :: 0 <= i < |xs| ==> r[i] == f(xs[i])
  {
    seq(|xs|, i requires 0 <= i < |xs| => f(xs[i]))
  }

  lemma MappedFirst<A, B>(f: A -> B, x: A, xs: seq<A>)
    ensures Mapped(f, [x] + xs) == [f(x)] + Mapped(f, xs)
  {
  }

  ghost predicate SameOrder<A, B>(leA: (A, A) -> bool, leB: (B, B) -> bool, f: A -> B, a: A, b: A) {
    leB(f(a), f(b)) <==> leA(a, b)
  }

  lemma {:induction false} InsertCommutes<A(!new), B>(leA: (A, A) -> bool, leB: (B, B) -> bool, f: A -> B, x: A, xs: seq<A>)
    requires forall a, b :: SameOrder(leA, leB, f, a, b)
    ensures Insert(leB, f(x), Mapped(f, xs)) == Mapped(f, Insert(leA, x, xs))
  {
    if xs == [] {
      assert Mapped(f, [x]) == [f(x)];
    } else {
      assert SameOrder(leA, leB, f, x, xs[0]);
      if leA(x, xs[0]) {
        MappedFirst(f, x, xs);
      } else {
        InsertCommutes(leA, leB, f, x, xs[1..]);
        MappedFirst(f, xs[0], xs[1..]);
        MappedFirst(f, xs[0], Insert(leA, x, xs[1..]));
        assert [xs[0]] + xs[1..] == xs;
      }
    }
  }

  /** Sorting commutes with a map that keeps the comparison. */
  lemma {:induction false} SortCommutes<A(!new), B>(leA: (A, A) -> bool, leB: (B, B) -> bool, f: A -> B, xs: seq<A>)
    requires forall a, b :: SameOrder(leA, leB, f, a, b)
    ensures Sort(leB, Mapped(f, xs)) == Mapped(f, Sort(leA, xs))
  {
    if xs != [] {
      assert Mapped(f, xs)[1..] == Mapped(f, xs[1..]);
      SortCommutes(leA, leB, f, xs[1..]);
      InsertCommutes(leA, leB, f, xs[0], Sort(leA, xs[1..]));
    }
  }

  function Filter<T>(p: T -> bool, xs: seq<T>): seq<T> {
    if xs == [] then [] else (if p(xs[0]) then [xs[0]] else []) + Filter(p, xs[1..])
  }

  /** Inserting moves `x` only past elements that are strictly before it, so its equals stay behind it. */
  lemma {:induction false} InsertIsStable<T(!new)>(le: (T, T) -> bool, x: T, xs: seq<T>, pivot: T)
    requires TotalPreorder(le)
    ensures Filter((y: T) => le(y, pivot) && le(pivot, y), Insert(le, x, xs))
            == Filter((y: T) => le(y, pivot) && le(pivot, y), [x] + xs)
  {
    var p := (y: T) => le(y, pivot) && le(pivot, y);
    assert ([x] + xs)[1..] == xs;
    if xs != [] && !le(x, xs[0]) {
      InsertIsStable(le, x, xs[1..], pivot);
      var rest := Insert(le, x, xs[1..]);
      assert ([xs[0]] + rest)[1..] == rest;
      assert ([x] + xs[1..])[1..] == xs[1..];
      assert !(le(x, pivot) && le(pivot, xs[0]));
    }
  }

  /** Stability: the elements equal to any pivot keep their order. */
  lemma {:induction false} SortIsStable<T(!new)>(le: (T, T) -> bool, xs: seq<T>, pivot: T)
    requires TotalPreorder(le)
    ensures Filter((y: T) => le(y, pivot) && le(pivot, y), Sort(le, xs))
            == Filter((y: T) => le(y, pivot) && le(pivot, y), xs)
  {
    if xs != [] {
      var p := (y: T) => le(y, pivot) && le(pivot, y);
      var rest := Sort(le, xs[1..]);
      SortIsStable(le, xs[1..], pivot);
      InsertIsStable(le, xs[0], rest, pivot);
      assert ([xs[0]] + rest)[1..] == rest;
    }
  }

  /** A string as JavaScript stores it: one code unit for a character of the basic plane, two for any other. */
  function CodeUnits(s: string): seq<int> {
    if s == "" then []
    else
      var c := s[0] as int;
      (if c < 0x10000 then [c] else [0xD800 + (c - 0x10000) / 0x400, 0xDC00 + (c - 0x10000) % 0x400]) + CodeUnits(s[1..])
  }

  predicate UnitsLe(a: seq<int>, b: seq<int>) {
    a == [] || (b != [] && (a[0] < b[0] || (a[0] == b[0] && UnitsLe(a[1..], b[1..]))))
  }

  /** The order `sort` puts strings in when it is given no comparison. */
  predicate StringLe(a: string, b: string) {
    UnitsLe(CodeUnits(a), CodeUnits(b))
  }

  /** The code units of one character: itself, or a high and a low surrogate that give it back. */
  lemma UnitsOfOne(c: char)
    ensures c as int < 0x10000 ==> CodeUnits([c]) == [c as int]
    ensures c as int >= 0x10000 ==>
      var u := CodeUnits([c]);
      && |u| == 2 && 0xD800 <= u[0] < 0xDC00 <= u[1] < 0xE000
      && 0x10000 + 0x400 * (u[0] - 0xD800) + (u[1] - 0xDC00) == c as int
  {
    assert [c][1..] == [];
  }

  lemma {:induction false} UnitsOfBoth(a: string, b: string)
    ensures CodeUnits(a + b) == CodeUnits(a) + CodeUnits(b)
  {
    if a == "" {
      assert a + b == b;
    } else {
      assert (a + b)[1..] == a[1..] + b;
      UnitsOfBoth(a[1..], b);
    }
  }

  /** Up to `k` alike, and there `a` is smaller. */
  ghost predicate FirstDifference(a: seq<int>, b: seq<int>, k: int) {
    0 <= k < |a| && k < |b| && a[..k] == b[..k] && a[k] < b[k]
  }

  lemma {:induction false} UnitsLeMeans(a: seq<int>, b: seq<int>)
    ensures UnitsLe(a, b) <==> a <= b || exists k :: FirstDifference(a, b, k)
  {
    if a != [] && b != [] && a[0] == b[0] {
      UnitsLeMeans(a[1..], b[1..]);
      if k :| FirstDifference(a[1..], b[1..], k) {
        assert a[..k + 1] == [a[0]] + a[1..][..k] && b[..k + 1] == [b[0]] + b[1..][..k];
        assert FirstDifference(a, b, k + 1);
      }
      if k :| FirstDifference(a, b, k) {
        assert k > 0 && a[1..][..k - 1] == a[..k][1..] && b[1..][..k - 1] == b[..k][1..];
        assert FirstDifference(a[1..], b[1..], k - 1);
      }
      assert a == [a[0]] + a[1..] && b == [b[0]] + b[1..];
    } else if a != [] && b != [] {
      assert a[0] < b[0] ==> FirstDifference(a, b, 0);
      forall k | 0 < k < |a| && k < |b| ensures a[..k] != b[..k] {
        assert a[..k][0] == a[0] && b[..k][0] == b[0];
      }
    }
  }

  /** The order of strings: a prefix comes first, and otherwise the first code unit that differs decides. */
  lemma StringOrder(a: string, b: string)
    ensures StringLe(a, b) <==> CodeUnits(a) <= CodeUnits(b) || exists k :: FirstDifference(CodeUnits(a), CodeUnits(b), k)
  {
    UnitsLeMeans(CodeUnits(a), CodeUnits(b));
  }

  lemma {:induction false} UnitsLeTotal(a: seq<int>, b: seq<int>)
    ensures UnitsLe(a, b) || UnitsLe(b, a)
  {
    if a != [] && b != [] && a[0] == b[0] {
      UnitsLeTotal(a[1..], b[1..]);
    }
  }

  lemma {:induction false} UnitsLeTransitive(a: seq<int>, b: seq<int>, c: seq<int>)
    requires UnitsLe(a, b) && UnitsLe(b, c)
    ensures UnitsLe(a, c)
  {
    if a != [] && a[0] == b[0] && b[0] == c[0] {
      UnitsLeTransitive(a[1..], b[1..], c[1..]);
    }
  }

  lemma StringLeIsTotalPreorder()
    ensures TotalPreorder(StringLe)
  {
    forall x, y ensures StringLe(x, y) || StringLe(y, x) {
      UnitsLeTotal(CodeUnits(x), CodeUnits(y));
    }
    forall x, y, z | StringLe(x, y) && StringLe(y, z) ensures StringLe(x, z) {
      UnitsLeTransitive(CodeUnits(x), CodeUnits(y), CodeUnits(z));
    }
  }
}
