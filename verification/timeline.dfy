/**
  `FrameBase._timesandcadence`: the canonical timeline of a frame's times and
  its cadence, memoized per rounding unit.

  Times are mathematical reals on one time scale (the GPS seconds the source
  reads); `np.round` rounds half to even, and that rule is written out in
  `RoundHalfEven`.
 */
module Timeline {
  import opened Results
  import opened Sorting

  /**
    `np.round` to a whole number: the nearest integer, and the even one of
    the two when `x` lies exactly half-way between them.
   */
  function RoundHalfEven(x: real): (k: int)
    ensures x - 0.5 <= k as real <= x + 0.5
    ensures (k as real - x == 0.5 || x - k as real == 0.5) ==> k % 2 == 0
  {
    var f := x.Floor;
    var d := x - f as real;
    if d < 0.5 then f
    else if d > 0.5 then f + 1
    else if f % 2 == 0 then f
    else f + 1
  }

  /**
    At most one integer is a nearest integer to `x` with ties going to the
    even one.
   */
  lemma NearestEvenUnique(x: real, j: int, k: int)
    requires x - 0.5 <= j as real <= x + 0.5 && x - 0.5 <= k as real <= x + 0.5
    requires (j as real - x == 0.5 || x - j as real == 0.5) ==> j % 2 == 0
    requires (k as real - x == 0.5 || x - k as real == 0.5) ==> k % 2 == 0
    ensures j == k
  {
    assert j as real - k as real <= 1.0 && k as real - j as real <= 1.0;
  }

  /** Rounding half to even is odd-symmetric: `np.round(-x) == -np.round(x)`. */
  lemma RoundHalfEvenOdd(x: real)
    ensures RoundHalfEven(-x) == -RoundHalfEven(x)
  {
    var k := RoundHalfEven(x);
    assert (k % 2 == 0) == ((-k) % 2 == 0);
    NearestEvenUnique(-x, RoundHalfEven(-x), -k);
  }

  /** The `n`-th point of the grid through `baseline` with step `unit`. */
  function GridPoint(baseline: real, unit: real, n: int): real {
    baseline + unit * (n as real)
  }

  /** `x` is a grid point at or after `baseline`. */
  ghost predicate OnGrid(x: real, baseline: real, unit: real) {
    exists n: nat :: x == GridPoint(baseline, unit, n)
  }

  /** The index of the grid point nearest to `t`, ties going to the even index. */
  function Index(t: real, baseline: real, unit: real): int
    requires unit > 0.0
  {
    RoundHalfEven((t - baseline) / unit)
  }

  /**
    `round * np.round((t - baseline) / round) + baseline`: `t` moved to the
    nearest point of the grid through `baseline` with step `unit`.
   */
  function Snap(t: real, baseline: real, unit: real): real
    requires unit > 0.0
  {
    GridPoint(baseline, unit, Index(t, baseline, unit))
  }

  /**
    The rounding of `_timesandcadence` exactly as written, for any non-zero
    `round`: `round * np.round((t - baseline) / round) + baseline`.
   */
  function RoundTo(t: real, baseline: real, round: real): real
    requires round != 0.0
  {
    round * (RoundHalfEven((t - baseline) / round) as real) + baseline
  }

  /** `|x|`. */
  function Abs(x: real): (a: real)
    ensures a >= 0.0 && (a == x || a == -x)
  {
    if x < 0.0 then -x else x
  }

  /**
    Rounding to `round` or to `-round` lands on the same grid point, since
    `np.round` is odd-symmetric: a negative `round` snaps to the grid of its
    absolute value.
   */
  lemma RoundToMirror(t: real, baseline: real, round: real)
    requires round != 0.0
    ensures RoundTo(t, baseline, round) == Snap(t, baseline, Abs(round))
  {
    if round < 0.0 {
      var u := -round;
      var q := (t - baseline) / u;
      assert (t - baseline) / round == -q;
      RoundHalfEvenOdd(q);
      var k := RoundHalfEven(q);
      assert RoundHalfEven((t - baseline) / round) == -k;
      assert round * ((-k) as real) == u * (k as real);
    }
  }

  /**
    A snapped time is within half a step of the time, and a time at or after
    the baseline snaps to a grid point at or after the baseline.
   */
  lemma SnapNearest(t: real, baseline: real, unit: real)
    requires unit > 0.0
    ensures Snap(t, baseline, unit) - t <= unit / 2.0
    ensures t - Snap(t, baseline, unit) <= unit / 2.0
    ensures t >= baseline ==> Index(t, baseline, unit) >= 0 && OnGrid(Snap(t, baseline, unit), baseline, unit)
  {
    var q := (t - baseline) / unit;
    var k := Index(t, baseline, unit);
    var d := (k as real) - q;
    assert t - baseline == unit * q;
    assert Snap(t, baseline, unit) - t == unit * d;
    assert -0.5 <= d <= 0.5;
    assert unit * d <= unit * 0.5;
    assert unit * d >= unit * -0.5;
    if t >= baseline {
      assert q >= 0.0;
      var n: nat := k;
      assert Snap(t, baseline, unit) == GridPoint(baseline, unit, n);
    }
  }

  /** Grid points further along the grid are at least one step further on. */
  lemma GridGap(baseline: real, unit: real, m: int, n: int)
    requires unit > 0.0 && m < n
    ensures GridPoint(baseline, unit, n) - GridPoint(baseline, unit, m) >= unit
  {
    var k := (n - m) as real;
    assert GridPoint(baseline, unit, n) - GridPoint(baseline, unit, m) == unit * k;
    assert k >= 1.0;
    assert unit * k >= unit * 1.0;
  }

  /** Two distinct points at or after the baseline of one grid are at least one step apart. */
  lemma OnGridGap(x: real, y: real, baseline: real, unit: real)
    requires unit > 0.0
    requires OnGrid(x, baseline, unit) && OnGrid(y, baseline, unit)
    requires x < y
    ensures y - x >= unit
  {
    var m: nat :| x == GridPoint(baseline, unit, m);
    var n: nat :| y == GridPoint(baseline, unit, n);
    if n <= m {
      if n < m {
        GridGap(baseline, unit, n, m);
      }
      assert false;
    }
    GridGap(baseline, unit, m, n);
  }

  /**
    The unit inferred when no `round` is given: the least strictly positive
    difference between neighbours of the sorted times.
   */
  function InferRound(ts: seq<real>): (r: Result<real>)
    ensures r.Ok? ==> r.value > 0.0
    ensures r.Err? ==> r.error == ValueError
  {
    Least(Positives(Diffs(Sort(ts))))
  }

  /** A canonical timeline and its cadence. */
  datatype Timeline = Timeline(times: seq<real>, cadence: real)

  /** Every time rounded as `_timesandcadence` writes it, for any non-zero `round`. */
  function RoundedTo(ts: seq<real>, baseline: real, round: real): (s: seq<real>)
    requires round != 0.0
    ensures |s| == |ts|
  {
    seq(|ts|, i requires 0 <= i < |ts| => RoundTo(ts[i], baseline, round))
  }

  /** Every time snapped to the grid through `baseline`. */
  function Snapped(ts: seq<real>, baseline: real, unit: real): (s: seq<real>)
    requires unit > 0.0
    ensures |s| == |ts|
  {
    seq(|ts|, i requires 0 <= i < |ts| => Snap(ts[i], baseline, unit))
  }

  /**
    The distinct values in order, and the least gap between them as the
    cadence; `np.min` raises `ValueError` when there are fewer than two
    distinct values.
   */
  function Distil(snapped: seq<real>): (r: Result<Timeline>)
    ensures r.Err? ==> r.error == ValueError
  {
    var times := Unique(snapped);
    var cadence :- Least(Diffs(times));
    Ok(Timeline(times, cadence))
  }

  /**
    The body of `_timesandcadence` once the unit is known: snap every time to
    the grid through the earliest one, then distil. `np.min` raises
    `ValueError` on no times at all.
   */
  function Canonical(ts: seq<real>, unit: real): (r: Result<Timeline>)
    requires unit > 0.0
    ensures r.Err? ==> r.error == ValueError
  {
    if |ts| == 0 then Err(ValueError) else Distil(Snapped(ts, Min(ts), unit))
  }

  /** The memo `_precaculatedtimesandcadence`, keyed by the `round` argument. */
  type Memo = map<Option<real>, Timeline>

  /** A timeline result together with the memo as the call leaves it. */
  datatype Memoized = Memoized(result: Result<Timeline>, memo: Memo)

  /**
    `_timesandcadence(round)`: a memo hit under the caller's `round` returns
    the stored pair; otherwise the timeline is computed with the given or the
    inferred unit and stored under that unit, never under `None`.
   */
  function TimesAndCadence(ts: seq<real>, round: Option<real>, memo: Memo): (out: Memoized)
    requires round.Some? ==> round.value != 0.0
    ensures round in memo ==> out == Memoized(Ok(memo[round]), memo)
    ensures None !in memo ==> None !in out.memo
    ensures out.result.Err? ==> out.memo == memo
    ensures round !in memo && out.result.Ok? ==>
      exists unit :: out.memo == memo[Some(unit) := out.result.value]
    ensures round.Some? && round !in memo ==>
      && out.result == Canonical(ts, Abs(round.value))
      && (out.result.Ok? ==> out.memo == memo[round := out.result.value])
  {
    if round in memo then Memoized(Ok(memo[round]), memo)
    else
      var unit := match round
        case Some(u) => Ok(u)
        case None => InferRound(ts);
      if unit.Err? then Memoized(Err(unit.error), memo)
      else
        var r := Canonical(ts, Abs(unit.value));
        if r.Err? then Memoized(r, memo)
        else Memoized(r, memo[Some(unit.value) := r.value])
  }

  /**
    The timeline computed for a non-zero `round` is the distillation of the
    times rounded exactly as written, through the earliest time.
   */
  lemma {:induction false} CanonicalIsRoundedTo(ts: seq<real>, round: real)
    requires round != 0.0 && |ts| > 0
    ensures Canonical(ts, Abs(round)) == Distil(RoundedTo(ts, Min(ts), round))
  {
    forall i | 0 <= i < |ts|
      ensures RoundedTo(ts, Min(ts), round)[i] == Snapped(ts, Min(ts), Abs(round))[i]
    {
      RoundToMirror(ts[i], Min(ts), round);
    }
    assert RoundedTo(ts, Min(ts), round) == Snapped(ts, Min(ts), Abs(round));
  }

  /**
    A negative `round` gives the timeline of its absolute value, and stores
    it under the negative key, where a later request with the positive value
    does not find it.
   */
  lemma NegativeRoundMirrors(ts: seq<real>, u: real, memo: Memo)
    requires u > 0.0 && Some(-u) !in memo && Some(u) !in memo
    ensures var out := TimesAndCadence(ts, Some(-u), memo);
      && out.result == TimesAndCadence(ts, Some(u), memo).result
      && (out.result.Ok? ==> Some(-u) in out.memo && Some(u) !in out.memo)
  {
  }

  /**
    Between two neighbours `t[a] < t[b]` of a sorted sequence there is a
    positive gap between neighbours no larger than `t[b] - t[a]`.
   */
  lemma {:induction false} PositiveGapWithin(t: seq<real>, a: nat, b: nat) returns (k: nat)
    requires Sorted(t) && a < b < |t| && t[a] < t[b]
    ensures a <= k < b
    ensures 0.0 < t[k + 1] - t[k] <= t[b] - t[a]
    decreases b - a
  {
    if t[a + 1] > t[a] {
      k := a;
    } else {
      k := PositiveGapWithin(t, a + 1, b);
    }
  }

  /** A value of the input is at some index of its sorted copy. */
  lemma IndexInSorted(ts: seq<real>, t: seq<real>, i: nat) returns (p: nat)
    requires multiset(t) == multiset(ts)
    requires i < |ts|
    ensures p < |t| && t[p] == ts[i]
  {
    assert ts[i] in multiset(ts);
    assert ts[i] in t;
    p :| 0 <= p < |t| && t[p] == ts[i];
  }

  /** In a sorted sequence a smaller value sits at a smaller index. */
  lemma SortedOrder(t: seq<real>, p: nat, q: nat)
    requires Sorted(t) && p < |t| && q < |t| && t[p] < t[q]
    ensures p < q
  {
  }

  /**
    When two input times differ, the inferred unit exists and is at most
    their distance.
   */
  lemma InferRoundBelowGap(ts: seq<real>, i: nat, j: nat)
    requires i < |ts| && j < |ts| && ts[i] < ts[j]
    ensures InferRound(ts).Ok?
    ensures InferRound(ts).value <= ts[j] - ts[i]
  {
    var t := Sort(ts);
    var p := IndexInSorted(ts, t, i);
    var q := IndexInSorted(ts, t, j);
    SortedOrder(t, p, q);
    var k := PositiveGapWithin(t, p, q);
    var d := Diffs(t);
    assert d[k] == t[k + 1] - t[k];
    assert d[k] in d;
    assert d[k] in Positives(d);
  }

  /**
    With `round=None` the unit is the least strictly positive distance
    between two input times; it exists exactly when not all times are equal
    (so it fails on an empty or single-time input), and it is attained by
    some pair of input times.
   */
  lemma InferRoundIsLeastGap(ts: seq<real>)
    ensures InferRound(ts).Ok? <==>
      exists i, j | 0 <= i < |ts| && 0 <= j < |ts| :: ts[i] != ts[j]
    ensures InferRound(ts).Ok? ==>
      forall i, j | 0 <= i < |ts| && 0 <= j < |ts| && ts[i] < ts[j] ::
        InferRound(ts).value <= ts[j] - ts[i]
    ensures InferRound(ts).Ok? ==>
      exists i, j | 0 <= i < |ts| && 0 <= j < |ts| :: ts[j] - ts[i] == InferRound(ts).value
  {
    var t := Sort(ts);
    SortKeepsValues(ts);
    if InferRound(ts).Ok? {
      var r := InferRound(ts).value;
      var k :| 0 <= k < |Diffs(t)| && Diffs(t)[k] == r;
      assert t[k + 1] - t[k] == r;
      assert t[k] in ts && t[k + 1] in ts;
      var i :| 0 <= i < |ts| && ts[i] == t[k];
      var j :| 0 <= j < |ts| && ts[j] == t[k + 1];
      assert ts[j] - ts[i] == r;
      forall i, j | 0 <= i < |ts| && 0 <= j < |ts| && ts[i] < ts[j]
        ensures r <= ts[j] - ts[i]
      {
        InferRoundBelowGap(ts, i, j);
      }
    }
    if exists i, j | 0 <= i < |ts| && 0 <= j < |ts| :: ts[i] != ts[j] {
      var i, j :| 0 <= i < |ts| && 0 <= j < |ts| && ts[i] != ts[j];
      if ts[i] < ts[j] {
        InferRoundBelowGap(ts, i, j);
      } else {
        InferRoundBelowGap(ts, j, i);
      }
    }
  }

  /** The baseline snaps to itself. */
  lemma SnapBaseline(baseline: real, unit: real)
    requires unit > 0.0
    ensures Snap(baseline, baseline, unit) == baseline
  {
    assert (baseline - baseline) / unit == 0.0;
    assert Index(baseline, baseline, unit) == 0;
  }

  /** A time at or after the baseline snaps to a grid point at or after it. */
  lemma SnapAfter(t: real, baseline: real, unit: real)
    requires unit > 0.0 && t >= baseline
    ensures OnGrid(Snap(t, baseline, unit), baseline, unit)
    ensures Snap(t, baseline, unit) >= baseline
  {
    SnapNearest(t, baseline, unit);
    var n: nat := Index(t, baseline, unit);
    assert unit * (n as real) >= 0.0;
  }

  /** The earliest time snaps to itself, and every time snaps to a grid point at or after it. */
  lemma SnappedOnGrid(ts: seq<real>, unit: real)
    requires unit > 0.0 && |ts| > 0
    ensures Min(ts) in Snapped(ts, Min(ts), unit)
    ensures forall x | x in Snapped(ts, Min(ts), unit) :: OnGrid(x, Min(ts), unit) && x >= Min(ts)
  {
    var b := Min(ts);
    var snapped := Snapped(ts, b, unit);
    var m :| 0 <= m < |ts| && ts[m] == b;
    SnapBaseline(b, unit);
    assert snapped[m] == b;
    forall x | x in snapped
      ensures OnGrid(x, b, unit) && x >= b
    {
      var i :| 0 <= i < |ts| && snapped[i] == x;
      SnapAfter(ts[i], b, unit);
    }
  }

  /** No two values differ. */
  predicate AllEqual(s: seq<real>) {
    forall x, y | x in s && y in s :: x == y
  }

  /** Distilling fails exactly when there are no two different values. */
  lemma DistilFails(s: seq<real>)
    ensures Distil(s).Err? <==> AllEqual(s)
  {
    var times := Unique(s);
    if AllEqual(s) {
      if |s| > 0 {
        forall i | 0 <= i < |times|
          ensures times[i] == s[0]
        {
          assert times[i] in s && s[0] in s;
        }
        AtMostOneValue(times, s[0]);
      }
    } else {
      var x, y :| x in s && y in s && x != y;
      TwoDistinct(times, x, y);
    }
  }

  /** An increasing sequence of copies of one value has at most one entry. */
  lemma AtMostOneValue(t: seq<real>, v: real)
    requires Increasing(t)
    requires forall i | 0 <= i < |t| :: t[i] == v
    ensures |t| <= 1
  {
    if |t| >= 2 {
      IncreasingPair(t);
      assert false;
    }
  }

  /** The first two entries of an increasing sequence differ. */
  lemma IncreasingPair(t: seq<real>)
    requires Increasing(t) && |t| >= 2
    ensures t[0] < t[1]
  {
  }

  /** A sequence holding two different values has at least two entries. */
  lemma TwoDistinct(t: seq<real>, x: real, y: real)
    requires x in t && y in t && x != y
    ensures |Diffs(t)| > 0
  {
  }

  /** `c` is the least gap between neighbours of `t`, and one of those gaps. */
  predicate IsLeastGap(c: real, t: seq<real>) {
    && (exists k | 0 <= k < |t| - 1 :: c == t[k + 1] - t[k])
    && (forall k | 0 <= k < |t| - 1 :: c <= t[k + 1] - t[k])
  }

  /** The least gap between neighbours, as `np.min(np.diff(times))` finds it. */
  lemma LeastGap(t: seq<real>)
    requires Least(Diffs(t)).Ok?
    ensures |t| >= 2
    ensures IsLeastGap(Least(Diffs(t)).value, t)
  {
    var d := Diffs(t);
    var k :| 0 <= k < |d| && d[k] == Least(d).value;
    assert Least(d).value == t[k + 1] - t[k];
  }

  /**
    A distilled timeline keeps each value once, in increasing order, and its
    cadence is the least gap between neighbours.
   */
  lemma DistilTimeline(s: seq<real>)
    requires !AllEqual(s)
    ensures Distil(s).Ok?
    ensures var tl := Distil(s).value;
      && Increasing(tl.times)
      && 2 <= |tl.times| <= |s|
      && (forall x :: x in tl.times <==> x in s)
      && IsLeastGap(tl.cadence, tl.times)
  {
    DistilFails(s);
    var times := Unique(s);
    var c := Least(Diffs(times)).value;
    assert Distil(s).value == Timeline(times, c);
    LeastGap(times);
  }

  /** The cadence of distilled grid points is at least one step. */
  lemma DistilOnGrid(s: seq<real>, baseline: real, unit: real)
    requires unit > 0.0
    requires forall x | x in s :: OnGrid(x, baseline, unit)
    requires !AllEqual(s)
    ensures Distil(s).Ok? && Distil(s).value.cadence >= unit
  {
    DistilFails(s);
    var times := Unique(s);
    var d := Diffs(times);
    var k :| 0 <= k < |d| && d[k] == Distil(s).value.cadence;
    assert times[k] in s && times[k + 1] in s;
    OnGridGap(times[k], times[k + 1], baseline, unit);
  }

  /** The first distilled value is the least one. */
  lemma DistilStart(s: seq<real>, m: real)
    requires !AllEqual(s)
    requires m in s && forall x | x in s :: m <= x
    ensures Distil(s).Ok? && Distil(s).value.times[0] == m
  {
    DistilFails(s);
    var times := Unique(s);
    assert m in times && times[0] in s;
    HeadIsLeast(times);
  }

  /** The head of an increasing sequence is its least value. */
  lemma HeadIsLeast(t: seq<real>)
    requires Increasing(t) && |t| > 0
    ensures forall x | x in t :: t[0] <= x
  {
    forall x | x in t
      ensures t[0] <= x
    {
      var p :| 0 <= p < |t| && t[p] == x;
      assert p == 0 || t[0] < t[p];
    }
  }

  /**
    The canonical timeline: strictly increasing, of at least two and at most
    as many times as the input; it holds exactly the snapped input times, and
    its cadence is the least gap between neighbours.
   */
  lemma CanonicalTimeline(ts: seq<real>, unit: real)
    requires unit > 0.0
    ensures Canonical(ts, unit).Ok? ==>
      var tl := Canonical(ts, unit).value;
      && Increasing(tl.times)
      && 2 <= |tl.times| <= |ts|
      && (forall x :: x in tl.times <==> x in Snapped(ts, Min(ts), unit))
      && IsLeastGap(tl.cadence, tl.times)
  {
    if Canonical(ts, unit).Ok? {
      var snapped := Snapped(ts, Min(ts), unit);
      assert Canonical(ts, unit) == Distil(snapped);
      DistilFails(snapped);
      DistilTimeline(snapped);
    }
  }

  /**
    The canonical timeline lies on the grid: it starts at the earliest input
    time, every time is a whole number of `unit` steps after it, and so the
    cadence is at least `unit`.
   */
  lemma CanonicalOnGrid(ts: seq<real>, unit: real)
    requires unit > 0.0
    ensures Canonical(ts, unit).Ok? ==>
      var tl := Canonical(ts, unit).value;
      && |tl.times| > 0 && tl.times[0] == Min(ts)
      && (forall k | 0 <= k < |tl.times| :: OnGrid(tl.times[k], Min(ts), unit))
      && tl.cadence >= unit
  {
    if Canonical(ts, unit).Ok? {
      var snapped := Snapped(ts, Min(ts), unit);
      assert Canonical(ts, unit) == Distil(snapped);
      DistilFails(snapped);
      SnappedOnGrid(ts, unit);
      DistilGrid(snapped, Min(ts), unit);
    }
  }

  /**
    Distilling grid points at or after a baseline that is one of them gives a
    timeline on that grid, starting at the baseline, with a cadence of at
    least one step.
   */
  lemma DistilGrid(s: seq<real>, baseline: real, unit: real)
    requires unit > 0.0 && !AllEqual(s) && baseline in s
    requires forall x | x in s :: OnGrid(x, baseline, unit) && x >= baseline
    ensures Distil(s).Ok?
    ensures var tl := Distil(s).value;
      && |tl.times| > 0 && tl.times[0] == baseline
      && (forall k | 0 <= k < |tl.times| :: OnGrid(tl.times[k], baseline, unit))
      && tl.cadence >= unit
  {
    DistilFails(s);
    var times := Distil(s).value.times;
    DistilOnGrid(s, baseline, unit);
    DistilStart(s, baseline);
    forall k | 0 <= k < |times|
      ensures OnGrid(times[k], baseline, unit)
    {
      assert times[k] in s;
    }
  }

  /**
    The canonical timeline fails exactly when there are no times or all of
    them snap to one grid point.
   */
  lemma CanonicalFails(ts: seq<real>, unit: real)
    requires unit > 0.0
    ensures Canonical(ts, unit).Err? <==>
      |ts| == 0 || AllEqual(Snapped(ts, Min(ts), unit))
  {
    if |ts| > 0 {
      DistilFails(Snapped(ts, Min(ts), unit));
    }
  }

  /**
    A `None` request never hits the memo: whatever the memo holds (it never
    holds `None`), the result is computed afresh from the times — the
    canonical timeline for the inferred unit when two times differ, and
    `ValueError` when they do not.
   */
  lemma NoneRequestRecomputes(ts: seq<real>, memo: Memo)
    requires None !in memo
    ensures TimesAndCadence(ts, None, memo).result == TimesAndCadence(ts, None, map[]).result
    ensures InferRound(ts).Ok? ==> TimesAndCadence(ts, None, memo).result == Canonical(ts, InferRound(ts).value)
    ensures InferRound(ts).Err? ==> TimesAndCadence(ts, None, memo).result == Err(ValueError)
  {
    InferRoundIsLeastGap(ts);
  }

  /**
    A successful `None` request stores its result under the inferred unit, so
    a later request with that explicit unit hits and returns the stored pair,
    even for other times.
   */
  lemma InferredUnitHitsLater(ts: seq<real>, later: seq<real>, memo: Memo)
    requires None !in memo
    ensures TimesAndCadence(ts, None, memo).result.Ok? ==> InferRound(ts).Ok?
    ensures TimesAndCadence(ts, None, memo).result.Ok? ==>
      var first := TimesAndCadence(ts, None, memo);
      && first.memo == memo[Some(InferRound(ts).value) := first.result.value]
      && TimesAndCadence(later, Some(InferRound(ts).value), first.memo) == first
  {
  }

  /**
    A second call with the same explicit `round` returns the pair the first
    call computed, unchanged, whatever the times are by then.
   */
  lemma ExplicitRoundMemoized(ts: seq<real>, later: seq<real>, unit: real, memo: Memo)
    requires unit != 0.0
    ensures var first := TimesAndCadence(ts, Some(unit), memo);
      first.result.Ok? ==> TimesAndCadence(later, Some(unit), first.memo) == first
  {
  }
}
