/** The median of a list of integer gaps, as Python's `statistics.median`
    computes it: sort ascending, take the middle element, or the mean of the
    two middle elements when the length is even. */
module Statistics {
  import Sorting

  function Negate(x: int): int { -x }

  /** The values in ascending order (descending by the negated value). */
  function Ascending(xs: seq<int>): (r: seq<int>)
    ensures |r| == |xs| && multiset(r) == multiset(xs)
    ensures forall i, j :: 0 <= i < j < |r| ==> r[i] <= r[j]
  {
    var r := Sorting.SortDesc(xs, Negate);
    Sorting.SortDescSorted(xs, Negate);
    assert forall i, j :: 0 <= i < j < |r| ==> Negate(r[i]) >= Negate(r[j]);
    r
  }

  /** The middle of an already sorted list. */
  function Middle(d: seq<int>): real
    requires |d| > 0
  {
    var n := |d|;
    if n % 2 == 1 then d[n / 2] as real
    else (d[n / 2 - 1] + d[n / 2]) as real / 2.0
  }

  function Median(xs: seq<int>): real
    requires |xs| > 0
  {
    Middle(Ascending(xs))
  }

  function SeqMin(xs: seq<int>): (m: int)
    requires |xs| > 0
    ensures m in xs
    ensures forall i :: 0 <= i < |xs| ==> m <= xs[i]
  {
    if |xs| == 1 then xs[0]
    else
      var rest := SeqMin(xs[1..]);
      assert forall i :: 1 <= i < |xs| ==> xs[i] == xs[1..][i - 1];
      if xs[0] <= rest then xs[0] else rest
  }

  function SeqMax(xs: seq<int>): (m: int)
    requires |xs| > 0
    ensures m in xs
    ensures forall i :: 0 <= i < |xs| ==> xs[i] <= m
  {
    if |xs| == 1 then xs[0]
    else
      var rest := SeqMax(xs[1..]);
      assert forall i :: 1 <= i < |xs| ==> xs[i] == xs[1..][i - 1];
      if xs[0] >= rest then xs[0] else rest
  }

  /** Number of elements of `xs` that satisfy `p`. */
  function CountWhere(xs: seq<int>, p: int -> bool): (c: nat)
    ensures c <= |xs|
  {
    if |xs| == 0 then 0
    else (if p(xs[0]) then 1 else 0) + CountWhere(xs[1..], p)
  }

  lemma {:induction false} CountConcat(a: seq<int>, b: seq<int>, p: int -> bool)
    ensures CountWhere(a + b, p) == CountWhere(a, p) + CountWhere(b, p)
  {
    if |a| == 0 {
      assert a + b == b;
    } else {
      assert (a + b)[1..] == a[1..] + b;
      CountConcat(a[1..], b, p);
    }
  }

  lemma {:induction false} CountAll(a: seq<int>, p: int -> bool)
    requires forall i :: 0 <= i < |a| ==> p(a[i])
    ensures CountWhere(a, p) == |a|
  {
    if |a| > 0 {
      CountAll(a[1..], p);
    }
  }

  /** Counting does not depend on the order of the elements. */
  lemma {:induction false} CountPermutation(xs: seq<int>, ys: seq<int>, p: int -> bool)
    requires multiset(xs) == multiset(ys)
    ensures CountWhere(xs, p) == CountWhere(ys, p)
    decreases |xs|
  {
    if |xs| == 0 {
      assert |multiset(ys)| == 0;
    } else {
      var x := xs[0];
      assert x in multiset(ys);
      var j :| 0 <= j < |ys| && ys[j] == x;
      var rest := ys[..j] + ys[j + 1..];
      assert ys == ys[..j] + ([x] + ys[j + 1..]);
      CountConcat(ys[..j], [x] + ys[j + 1..], p);
      CountConcat(ys[..j], ys[j + 1..], p);
      assert ([x] + ys[j + 1..])[1..] == ys[j + 1..];
      assert xs == [x] + xs[1..];
      assert multiset(ys) == multiset(ys[..j]) + multiset{x} + multiset(ys[j + 1..]);
      assert multiset(rest) == multiset(ys[..j]) + multiset(ys[j + 1..]);
      assert multiset(xs) == multiset{x} + multiset(xs[1..]);
      assert multiset(xs[1..]) == multiset(xs) - multiset{x};
      assert multiset(rest) == multiset(ys) - multiset{x};
      CountPermutation(xs[1..], rest, p);
    }
  }

  /** A value of a permutation of `xs` lies between its smallest and largest. */
  lemma PermutationWithin(d: seq<int>, xs: seq<int>, i: int)
    requires |xs| > 0 && multiset(d) == multiset(xs) && 0 <= i < |d|
    ensures SeqMin(xs) <= d[i] <= SeqMax(xs)
  {
    assert d[i] in multiset(xs);
    var j :| 0 <= j < |xs| && xs[j] == d[i];
  }

  /** The middle of a sorted list lies between its ends. */
  lemma MiddleWithin(d: seq<int>)
    requires |d| > 0
    requires forall i, j :: 0 <= i < j < |d| ==> d[i] <= d[j]
    ensures d[0] as real <= Middle(d) <= d[|d| - 1] as real
  {
    var n := |d|;
    if n % 2 == 0 {
      assert d[0] <= d[n / 2 - 1] <= d[n / 2] <= d[n - 1];
    }
  }

  /** The median lies between the smallest and the largest value. */
  lemma MedianBetween(xs: seq<int>)
    requires |xs| > 0
    ensures SeqMin(xs) as real <= Median(xs) <= SeqMax(xs) as real
  {
    var d := Ascending(xs);
    PermutationWithin(d, xs, 0);
    PermutationWithin(d, xs, |d| - 1);
    MiddleWithin(d);
  }

  /** When every value is `v`, so is the median. */
  lemma MedianOfEqual(xs: seq<int>, v: int)
    requires |xs| > 0
    requires forall i :: 0 <= i < |xs| ==> xs[i] == v
    ensures Median(xs) == v as real
  {
    MedianBetween(xs);
  }

  function AtMost(v: real): int -> bool { x => x as real <= v }

  function AtLeast(v: real): int -> bool { x => x as real >= v }

  lemma PrefixCount(d: seq<int>, k: nat, p: int -> bool)
    requires k <= |d|
    requires forall i :: 0 <= i < k ==> p(d[i])
    ensures CountWhere(d, p) >= k
  {
    assert d == d[..k] + d[k..];
    CountConcat(d[..k], d[k..], p);
    CountAll(d[..k], p);
  }

  lemma SuffixCount(d: seq<int>, k: nat, p: int -> bool)
    requires k <= |d|
    requires forall i :: k <= i < |d| ==> p(d[i])
    ensures CountWhere(d, p) >= |d| - k
  {
    assert d == d[..k] + d[k..];
    CountConcat(d[..k], d[k..], p);
    CountAll(d[k..], p);
  }

  lemma SortedHalves(d: seq<int>)
    requires |d| > 0
    requires forall i, j :: 0 <= i < j < |d| ==> d[i] <= d[j]
    ensures 2 * CountWhere(d, AtMost(Middle(d))) >= |d|
    ensures 2 * CountWhere(d, AtLeast(Middle(d))) >= |d|
  {
    var n := |d|;
    var m := Middle(d);
    var half := n / 2;
    if n % 2 == 1 {
      assert m == d[half] as real;
      forall i | 0 <= i < half + 1 ensures AtMost(m)(d[i]) {
        assert d[i] <= d[half];
      }
      forall i | half <= i < n ensures AtLeast(m)(d[i]) {
        assert d[half] <= d[i];
      }
    } else {
      assert m == (d[half - 1] + d[half]) as real / 2.0;
      assert d[half - 1] <= d[half];
      forall i | 0 <= i < half ensures AtMost(m)(d[i]) {
        assert d[i] <= d[half - 1];
      }
      forall i | half <= i < n ensures AtLeast(m)(d[i]) {
        assert d[half] <= d[i];
      }
    }
    PrefixCount(d, if n % 2 == 1 then half + 1 else half, AtMost(m));
    SuffixCount(d, half, AtLeast(m));
  }

  /** The defining property of a median: at least half of the values are
      at most it, and at least half are at least it. */
  lemma MedianSplitsHalves(xs: seq<int>)
    requires |xs| > 0
    ensures 2 * CountWhere(xs, AtMost(Median(xs))) >= |xs|
    ensures 2 * CountWhere(xs, AtLeast(Median(xs))) >= |xs|
  {
    var d := Ascending(xs);
    SortedHalves(d);
    CountPermutation(xs, d, AtMost(Middle(d)));
    CountPermutation(xs, d, AtLeast(Middle(d)));
  }
}
