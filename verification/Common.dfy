/** Small vocabulary shared by the other modules. */
module Common {

  type Service = string
  type Time = nat  // milliseconds

  datatype Option<+T> = None | Some(value: T)

  /** A subset is no larger. */
  lemma SubsetSize<T>(a: set<T>, b: set<T>)
    requires a <= b
    ensures |a| <= |b|
  {
    assert b == a + (b - a);
  }

  /** Two disjoint sets add up. */
  lemma DisjointSize<T>(a: set<T>, b: set<T>)
    requires a !! b
    ensures |a + b| == |a| + |b|
  {
  }

  /** Multiplying an inequality of integers by a positive factor. */
  lemma ScaleUp(c: nat, a: int, b: int)
    requires a <= b
    ensures c * a <= c * b
  {
  }

  /** `c * a <= x` bounds `a` by the integer quotient. */
  lemma QuotientBound(c: nat, a: int, x: int)
    requires c > 0 && x >= 0 && c * a <= x
    ensures a <= x / c
  {
    if a > x / c {
      ScaleUp(c, x / c + 1, a);
    }
  }

  /** The start of the fixed bucket of width `w` that holds `t`. */
  function BucketStart(t: int, w: nat): (b: int)
    requires w > 0
    ensures b <= t < b + w
    ensures b % w == 0
  {
    MultipleOf(t / w, w);
    t / w * w
  }

  lemma MultipleOf(q: int, w: nat)
    requires w > 0
    ensures (q * w) % w == 0
  {
    var m := q * w;
    assert m == w * q + 0;
    QuotientUnique(m, w, q, 0);
  }

  lemma QuotientUnique(m: int, w: nat, q: int, r: int)
    requires w > 0 && m == w * q + r && 0 <= r < w
    ensures m / w == q && m % w == r
  {
    var d := m / w - q;
    assert m == w * (m / w) + m % w;
    assert w * d == r - m % w;
    if d >= 1 {
      ScaleUp(w, 1, d);
    } else if d <= -1 {
      ScaleUp(w, d, -1);
    }
  }

  /** `BucketStart` is the only multiple of `w` whose bucket holds `t`. */
  lemma BucketStartUnique(t: int, w: nat, b: int)
    requires w > 0 && b % w == 0 && b <= t < b + w
    ensures b == BucketStart(t, w)
  {
    assert b == w * (b / w);
    QuotientUnique(t, w, b / w, t - b);
  }

  /** Times at least a bucket apart lie in different buckets. */
  lemma BucketsApart(t: int, u: int, w: nat)
    requires w > 0 && t + w <= u
    ensures BucketStart(t, w) < BucketStart(u, w)
  {
  }
}
