/**
  Reductions of one pixel column (the values of one pixel across the frames
  of a cube): `np.sum` and `np.median` along axis 0, seen one pixel at a time.
 */
module Columns {
  import opened Sorting

  /** The sum of the values, accumulated from the front. */
  function Sum(s: seq<real>): real {
    if s == [] then 0.0 else s[0] + Sum(s[1..])
  }

  /**
    `np.median`: the middle of the sorted values, or the mean of the two
    middle values when there is an even number of them.
   */
  function Median(s: seq<real>): real
    requires |s| > 0
  {
    var t := Sort(s);
    var n := |t|;
    if n % 2 == 1 then t[n / 2] else (t[n / 2 - 1] + t[n / 2]) / 2.0
  }

  /** How many values satisfy `p`. */
  function Count(s: seq<real>, p: real -> bool): nat {
    if s == [] then 0 else (if p(s[0]) then 1 else 0) + Count(s[1..], p)
  }

  /** How many values are at most `m`. */
  function AtMost(s: seq<real>, m: real): nat {
    Count(s, x => x <= m)
  }

  /** How many values are at least `m`. */
  function AtLeast(s: seq<real>, m: real): nat {
    Count(s, x => x >= m)
  }

  /** A sum of `n` copies of `v` is `n * v`. */
  lemma {:induction false} SumOfConstant(s: seq<real>, v: real)
    requires forall i | 0 <= i < |s| :: s[i] == v
    ensures Sum(s) == |s| as real * v
  {
    if s != [] {
      SumOfConstant(s[1..], v);
    }
  }

  lemma {:induction false} CountAppend(a: seq<real>, b: seq<real>, p: real -> bool)
    ensures Count(a + b, p) == Count(a, p) + Count(b, p)
  {
    if a == [] {
      assert a + b == b;
    } else {
      assert (a + b)[1..] == a[1..] + b;
      CountAppend(a[1..], b, p);
    }
  }

  lemma {:induction false} CountEvery(s: seq<real>, p: real -> bool)
    requires forall i | 0 <= i < |s| :: p(s[i])
    ensures Count(s, p) == |s|
  {
    if s != [] {
      CountEvery(s[1..], p);
    }
  }

  /** Removing the value at `j` removes one copy of it from the multiset. */
  lemma MultisetRemoveAt(b: seq<real>, j: nat)
    requires j < |b|
    ensures multiset(b[..j] + b[j + 1..]) == multiset(b) - multiset{b[j]}
  {
    assert b == b[..j] + [b[j]] + b[j + 1..];
  }

  /** Removing the value at `j` removes its contribution to a count. */
  lemma CountRemoveAt(b: seq<real>, j: nat, p: real -> bool)
    requires j < |b|
    ensures Count(b, p) == Count(b[..j] + b[j + 1..], p) + (if p(b[j]) then 1 else 0)
  {
    assert b == (b[..j] + [b[j]]) + b[j + 1..];
    CountAppend(b[..j] + [b[j]], b[j + 1..], p);
    CountAppend(b[..j], [b[j]], p);
    CountAppend(b[..j], b[j + 1..], p);
  }

  /** Counting does not depend on the order of the values. */
  lemma {:induction false} CountPermutation(a: seq<real>, b: seq<real>, p: real -> bool)
    requires multiset(a) == multiset(b)
    ensures Count(a, p) == Count(b, p)
    decreases |a|
  {
    if a == [] {
      assert |multiset(b)| == 0;
    } else {
      var x := a[0];
      assert x in multiset(b);
      var j :| 0 <= j < |b| && b[j] == x;
      assert a == [x] + a[1..];
      assert multiset(a[1..]) == multiset(a) - multiset{x};
      MultisetRemoveAt(b, j);
      CountPermutation(a[1..], b[..j] + b[j + 1..], p);
      CountRemoveAt(b, j, p);
    }
  }

  /** In a sorted sequence, `t[i]` is at least every earlier value. */
  lemma SortedPrefixAtMost(t: seq<real>, i: nat, m: real)
    requires Sorted(t) && i < |t| && t[i] <= m
    ensures AtMost(t, m) >= i + 1
  {
    var le := x => x <= m;
    assert t == t[..i + 1] + t[i + 1..];
    CountEvery(t[..i + 1], le);
    CountAppend(t[..i + 1], t[i + 1..], le);
  }

  /** In a sorted sequence, `t[i]` is at most every later value. */
  lemma SortedSuffixAtLeast(t: seq<real>, i: nat, m: real)
    requires Sorted(t) && i < |t| && t[i] >= m
    ensures AtLeast(t, m) >= |t| - i
  {
    var ge := x => x >= m;
    assert t == t[..i] + t[i..];
    CountEvery(t[i..], ge);
    CountAppend(t[..i], t[i..], ge);
  }

  /**
    The median splits the column in halves: at least half of the values are
    at most the median and at least half are at least the median.
   */
  lemma MedianSplits(s: seq<real>)
    requires |s| > 0
    ensures 2 * AtMost(s, Median(s)) >= |s|
    ensures 2 * AtLeast(s, Median(s)) >= |s|
  {
    var t := Sort(s);
    var n := |t|;
    var m := Median(s);
    var k := n / 2;
    if n % 2 == 1 {
      SortedPrefixAtMost(t, k, m);
      SortedSuffixAtLeast(t, k, m);
    } else {
      SortedPrefixAtMost(t, k - 1, m);
      SortedSuffixAtLeast(t, k, m);
    }
    CountPermutation(s, t, x => x <= m);
    CountPermutation(s, t, x => x >= m);
  }

  /** The median of a column of equal values is that value. */
  lemma MedianOfConstant(s: seq<real>, v: real)
    requires |s| > 0
    requires forall i | 0 <= i < |s| :: s[i] == v
    ensures Median(s) == v
  {
    var t := Sort(s);
    forall i | 0 <= i < |t|
      ensures t[i] == v
    {
      assert t[i] in multiset(s);
    }
  }
}
