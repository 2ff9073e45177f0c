/**
  The `numpy` primitives on one-dimensional real arrays that the reductions
  and the timeline are built from: `np.sort`, `np.unique`, `np.diff`,
  `np.min` and boolean-mask selection.
 */
module Sorting {
  import opened Results

  predicate Sorted(s: seq<real>) {
    forall i, j | 0 <= i < j < |s| :: s[i] <= s[j]
  }

  predicate Increasing(s: seq<real>) {
    forall i, j | 0 <= i < j < |s| :: s[i] < s[j]
  }

  /** `x` placed into a sorted sequence. */
  function Insert(x: real, s: seq<real>): (r: seq<real>)
    requires Sorted(s)
    ensures Sorted(r)
    ensures multiset(r) == multiset(s) + multiset{x}
    ensures |r| == |s| + 1
    ensures r[0] == x || (|s| > 0 && r[0] == s[0])
  {
    if s == [] then [x]
    else if x <= s[0] then [x] + s
    else
      var tail := Insert(x, s[1..]);
      HeadTail(s);
      [s[0]] + tail
  }

  /** A non-empty sequence holds its head and the values of its tail. */
  lemma HeadTail(s: seq<real>)
    requires |s| > 0
    ensures multiset(s) == multiset{s[0]} + multiset(s[1..])
  {
    assert s == [s[0]] + s[1..];
  }

  /** `np.sort`: the same values in ascending order. */
  function Sort(s: seq<real>): (r: seq<real>)
    ensures Sorted(r)
    ensures multiset(r) == multiset(s)
    ensures |r| == |s|
  {
    if s == [] then []
    else
      HeadTail(s);
      Insert(s[0], Sort(s[1..]))
  }

  /** Sorting keeps exactly the values of its input. */
  lemma SortKeepsValues(s: seq<real>)
    ensures forall x :: x in Sort(s) <==> x in s
  {
    var t := Sort(s);
    forall x
      ensures x in t <==> x in s
    {
      assert x in t <==> x in multiset(t);
      assert x in s <==> x in multiset(s);
    }
  }

  /** Adjacent duplicates of a sorted sequence collapsed to one. */
  function Dedup(s: seq<real>): (r: seq<real>)
    requires Sorted(s)
    ensures Increasing(r)
    ensures forall x :: x in r <==> x in s
    ensures |r| <= |s|
    ensures |s| > 0 ==> |r| > 0 && r[0] == s[0]
  {
    if |s| <= 1 then s
    else
      var rest := Dedup(s[1..]);
      assert forall x :: x in s <==> x == s[0] || x in s[1..];
      if s[0] == s[1] then rest
      else
        assert forall k | 0 <= k < |rest| :: rest[k] in s[1..];
        [s[0]] + rest
  }

  /** `np.unique`: the distinct values, ascending. */
  function Unique(s: seq<real>): (r: seq<real>)
    ensures Increasing(r)
    ensures forall x :: x in r <==> x in s
    ensures |r| <= |s|
  {
    SortKeepsValues(s);
    Dedup(Sort(s))
  }

  /** The least value of a non-empty sequence. */
  function Min(s: seq<real>): (m: real)
    requires |s| > 0
    ensures m in s
    ensures forall i | 0 <= i < |s| :: m <= s[i]
  {
    if |s| == 1 then s[0]
    else
      var rest := Min(s[1..]);
      assert forall i | 1 <= i < |s| :: s[i] == s[1..][i - 1];
      if s[0] <= rest then s[0] else rest
  }

  /** `np.min`, which raises `ValueError` on an empty array. */
  function Least(s: seq<real>): (r: Result<real>)
    ensures r.Err? <==> |s| == 0
    ensures r.Err? ==> r.error == ValueError
    ensures r.Ok? ==> r.value in s && forall i | 0 <= i < |s| :: r.value <= s[i]
  {
    if |s| == 0 then Err(ValueError) else Ok(Min(s))
  }

  /** `np.diff`: the differences of neighbours. */
  function Diffs(s: seq<real>): (d: seq<real>)
    ensures |s| > 0 ==> |d| == |s| - 1
    ensures |s| == 0 ==> d == []
    ensures forall i | 0 <= i < |d| :: d[i] == s[i + 1] - s[i]
  {
    if |s| == 0 then [] else seq(|s| - 1, i requires 0 <= i < |s| - 1 => s[i + 1] - s[i])
  }

  /** `d[d > 0]`: the strictly positive entries, in order. */
  function Positives(d: seq<real>): (p: seq<real>)
    ensures forall x :: x in p <==> x in d && x > 0.0
  {
    if d == [] then []
    else
      assert forall x :: x in d <==> x == d[0] || x in d[1..];
      (if d[0] > 0.0 then [d[0]] else []) + Positives(d[1..])
  }
}
