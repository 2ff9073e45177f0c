/**
  `Image_Sequence`: a sequence of 2D images with its shape, the gathered 3D
  cube and the per-pixel reductions over it. The repository holds two copies
  of the class; their `shape`, `_gather_3d`, `median` and `sum` are the same
  code, and they differ only in `mean`: `RunningMean` is the running
  accumulator of the `illumination` copy (cached), `CubeMean` the cube mean
  of the `playground` copy (not cached).

  The frames are the values `self[0] .. self[N-1]` of the underlying
  `Sequence`, so `N` is their number and `self[i]` outside `[0, N)` raises
  `IndexError`.

  The cache `spatial` is a class attribute that no instance rebinds: one
  dictionary serves every sequence of the same class (each copy of the
  class has its own), so it is passed in and out of each reduction rather
  than held per sequence.
 */
module ImageSequence {
  import opened Results
  import opened Images
  import Columns

  /** The class-level `spatial` dictionary, keyed by reduction name. */
  type Spatial = map<string, Image>

  /** A reduction's outcome together with the cache as the call leaves it. */
  datatype Cached = Cached(result: Result<Image>, spatial: Spatial)

  /** A stack of slices of one shape `(rows, cols)`. */
  datatype Stack = Stack(rows: nat, cols: nat, slices: seq<Image>)

  predicate Uniform(s: Stack) {
    forall i | 0 <= i < |s.slices| :: s.slices[i].rows == s.rows && s.slices[i].cols == s.cols
  }

  /** A 3D array of shape `(N, rows, cols)`. */
  type Cube = s: Stack | Uniform(s) witness Stack(0, 0, [])

  /** `shape`: `(N, rows, cols)` read from `self[0]`. */
  function Shape(frames: seq<Image>): (r: Result<(nat, nat, nat)>)
    ensures r.Err? <==> |frames| == 0
    ensures r.Err? ==> r.error == IndexError
    ensures r.Ok? ==> r.value == (|frames|, frames[0].rows, frames[0].cols)
  {
    if |frames| == 0 then Err(IndexError)
    else Ok((|frames|, frames[0].rows, frames[0].cols))
  }

  /** Every frame can be assigned into a `(rows, cols)` slice. */
  predicate Fits(frames: seq<Image>, rows: nat, cols: nat) {
    forall i | 0 <= i < |frames| :: Broadcastable(frames[i], rows, cols)
  }

  /**
    `_gather_3d`: a zero cube of the shape `shape` reports, whose slice `i`
    receives `self[i]`. The assignment broadcasts, so a frame whose dimensions
    are neither equal to frame 0's nor 1 raises `ValueError`.
   */
  function GatherCube(frames: seq<Image>): (r: Result<Cube>)
    ensures r.Ok? <==> |frames| > 0 && Fits(frames, frames[0].rows, frames[0].cols)
    ensures |frames| == 0 ==> r == Err(IndexError)
    ensures |frames| > 0 && r.Err? ==> r.error == ValueError
    ensures r.Ok? ==> r.value.rows == frames[0].rows && r.value.cols == frames[0].cols
    ensures r.Ok? ==> |r.value.slices| == |frames|
  {
    var shape :- Shape(frames);
    var rows, cols := shape.1, shape.2;
    if !Fits(frames, rows, cols) then Err(ValueError)
    else Ok(Stack(rows, cols, seq(|frames|, i requires 0 <= i < |frames| => BroadcastTo(frames[i], rows, cols))))
  }

  /**
    Slice `i` of the gathered cube is `self[i]`, for every `i` in `[0, N)`,
    and the cube's shape is the one `shape` reports.
   */
  lemma GatherKeepsFrames(frames: seq<Image>)
    requires |frames| > 0
    requires forall i | 0 <= i < |frames| :: SameShape(frames[i], frames[0])
    ensures GatherCube(frames).Ok?
    ensures Shape(frames) == Ok((|GatherCube(frames).value.slices|, GatherCube(frames).value.rows, GatherCube(frames).value.cols))
    ensures forall i | 0 <= i < |frames| :: GatherCube(frames).value.slices[i] == frames[i]
  {
    forall i | 0 <= i < |frames|
      ensures GatherCube(frames).value.slices[i] == frames[i]
    {
      BroadcastToOwnShape(frames[i]);
    }
  }

  /**
    The loop of `_gather_3d`: the cube starts as zeros and is filled one
    slice at a time, in index order.
   */
  method Gather(frames: seq<Image>) returns (r: Result<Cube>)
    ensures r == GatherCube(frames)
  {
    if |frames| == 0 {
      return Err(IndexError);
    }
    var rows, cols := frames[0].rows, frames[0].cols;
    var slices: seq<Image> := seq(|frames|, _ => Zeros(rows, cols));
    var i := 0;
    while i < |frames|
      invariant 0 <= i <= |frames|
      invariant |slices| == |frames|
      invariant forall k | 0 <= k < i :: Broadcastable(frames[k], rows, cols)
      invariant forall k | 0 <= k < i :: slices[k] == BroadcastTo(frames[k], rows, cols)
      invariant forall k | i <= k < |frames| :: slices[k] == Zeros(rows, cols)
    {
      if !Broadcastable(frames[i], rows, cols) {
        return Err(ValueError);
      }
      slices := slices[i := BroadcastTo(frames[i], rows, cols)];
      i := i + 1;
    }
    assert slices == GatherCube(frames).value.slices;
    r := Ok(Stack(rows, cols, slices));
  }

  /** The values of pixel `(r, c)` across the cube, in slice order. */
  function Column(cube: Cube, r: nat, c: nat): (col: seq<real>)
    requires r < cube.rows && c < cube.cols
    ensures |col| == |cube.slices|
  {
    seq(|cube.slices|, i requires 0 <= i < |cube.slices| => cube.slices[i].px[r][c])
  }

  /** `np.median(cube, axis=0)`. */
  function MedianImage(cube: Cube): (m: Image)
    requires |cube.slices| > 0
    ensures m.rows == cube.rows && m.cols == cube.cols
  {
    Grid(cube.rows, cube.cols,
      seq(cube.rows, r requires 0 <= r < cube.rows =>
        seq(cube.cols, c requires 0 <= c < cube.cols => Columns.Median(Column(cube, r, c)))))
  }

  /** `np.sum(cube, axis=0)`. */
  function SumImage(cube: Cube): (s: Image)
    ensures s.rows == cube.rows && s.cols == cube.cols
  {
    Grid(cube.rows, cube.cols,
      seq(cube.rows, r requires 0 <= r < cube.rows =>
        seq(cube.cols, c requires 0 <= c < cube.cols => Columns.Sum(Column(cube, r, c)))))
  }

  /** `np.mean(cube, axis=0)`. */
  function MeanImage(cube: Cube): (m: Image)
    requires |cube.slices| > 0
    ensures m.rows == cube.rows && m.cols == cube.cols
  {
    Grid(cube.rows, cube.cols,
      seq(cube.rows, r requires 0 <= r < cube.rows =>
        seq(cube.cols, c requires 0 <= c < cube.cols =>
          Columns.Sum(Column(cube, r, c)) / |cube.slices| as real)))
  }

  /**
    `median`: the stored `spatial['median']` when there is one, whatever
    sequence asks; otherwise the per-pixel median of the gathered cube, which
    is then stored. A failed gather leaves the cache as it was.
   */
  function Median(frames: seq<Image>, spatial: Spatial): (out: Cached)
    ensures "median" in spatial ==> out == Cached(Ok(spatial["median"]), spatial)
    ensures "median" !in spatial ==> (out.result.Ok? <==> GatherCube(frames).Ok?)
    ensures "median" !in spatial && out.result.Ok? ==> out.spatial == spatial["median" := out.result.value]
    ensures out.result.Err? ==> out.spatial == spatial
  {
    if "median" in spatial then Cached(Ok(spatial["median"]), spatial)
    else
      match GatherCube(frames)
      case Err(e) => Cached(Err(e), spatial)
      case Ok(cube) =>
        var m := MedianImage(cube);
        Cached(Ok(m), spatial["median" := m])
  }

  /** `sum`: the per-pixel sum of the gathered cube, recomputed on every call. */
  function Sum(frames: seq<Image>): (r: Result<Image>)
    ensures r.Ok? <==> GatherCube(frames).Ok?
    ensures r.Err? ==> r.error == GatherCube(frames).error
  {
    var cube :- GatherCube(frames);
    Ok(SumImage(cube))
  }

  /** `total += self[i]` for every frame in turn, broadcasting into `total`. */
  function Accumulate(total: Image, frames: seq<Image>): (r: Result<Image>)
    ensures r.Ok? ==> SameShape(r.value, total)
    decreases |frames|
  {
    if frames == [] then Ok(total)
    else if !Broadcastable(frames[0], total.rows, total.cols) then Err(ValueError)
    else Accumulate(Add(total, BroadcastTo(frames[0], total.rows, total.cols)), frames[1..])
  }

  /**
    `mean` of the `illumination` copy: the stored `spatial['mean']` when there
    is one; otherwise a running total started from `zeros_like(self[0])`,
    divided by `N` and stored.
   */
  function RunningMean(frames: seq<Image>, spatial: Spatial): (out: Cached)
    ensures "mean" in spatial ==> out == Cached(Ok(spatial["mean"]), spatial)
    ensures "mean" !in spatial && out.result.Ok? ==> out.spatial == spatial["mean" := out.result.value]
    ensures out.result.Err? ==> out.spatial == spatial
  {
    if "mean" in spatial then Cached(Ok(spatial["mean"]), spatial)
    else if |frames| == 0 then Cached(Err(IndexError), spatial)
    else
      match Accumulate(Zeros(frames[0].rows, frames[0].cols), frames)
      case Err(e) => Cached(Err(e), spatial)
      case Ok(total) =>
        var m := Divide(total, |frames| as real);
        Cached(Ok(m), spatial["mean" := m])
  }

  /** `mean` of the `playground` copy: the per-pixel mean of the gathered cube, not cached. */
  function CubeMean(frames: seq<Image>): (r: Result<Image>)
    ensures r.Ok? <==> GatherCube(frames).Ok?
    ensures r.Err? ==> r.error == GatherCube(frames).error
  {
    var cube :- GatherCube(frames);
    Ok(MeanImage(cube))
  }

  /** Pixel `(r, c)` of every frame, broadcast to `(rows, cols)`. */
  function Along(frames: seq<Image>, rows: nat, cols: nat, r: nat, c: nat): (col: seq<real>)
    requires Fits(frames, rows, cols) && r < rows && c < cols
    ensures |col| == |frames|
  {
    seq(|frames|, i requires 0 <= i < |frames| => BroadcastTo(frames[i], rows, cols).px[r][c])
  }

  lemma ColumnOfGather(frames: seq<Image>, r: nat, c: nat)
    requires GatherCube(frames).Ok?
    requires r < frames[0].rows && c < frames[0].cols
    ensures Column(GatherCube(frames).value, r, c) == Along(frames, frames[0].rows, frames[0].cols, r, c)
  {
  }

  /**
    Each pixel of `sum()` adds that pixel of every frame, broadcast to frame
    0's shape, and nothing else.
   */
  lemma SumAddsFrames(frames: seq<Image>)
    ensures Sum(frames).Ok? ==>
      && Sum(frames).value.rows == frames[0].rows && Sum(frames).value.cols == frames[0].cols
      && forall r, c | 0 <= r < frames[0].rows && 0 <= c < frames[0].cols ::
           Sum(frames).value.px[r][c] == Columns.Sum(Along(frames, frames[0].rows, frames[0].cols, r, c))
  {
    if Sum(frames).Ok? {
      forall r, c | 0 <= r < frames[0].rows && 0 <= c < frames[0].cols
        ensures Sum(frames).value.px[r][c] == Columns.Sum(Along(frames, frames[0].rows, frames[0].cols, r, c))
      {
        ColumnOfGather(frames, r, c);
      }
    }
  }

  /** The cube mean of the `playground` copy is `sum() / N`, failures included. */
  lemma MeanIsSumOverN(frames: seq<Image>)
    ensures CubeMean(frames).Ok? <==> Sum(frames).Ok?
    ensures CubeMean(frames).Ok? ==> CubeMean(frames).value == Divide(Sum(frames).value, |frames| as real)
  {
    if CubeMean(frames).Ok? {
      var cube := GatherCube(frames).value;
      SamePixels(CubeMean(frames).value, Divide(Sum(frames).value, |frames| as real));
    }
  }

  /**
    The running total fails exactly when some frame cannot be broadcast into
    it, and otherwise adds each pixel's values across the frames to it.
   */
  lemma {:induction false} AccumulateSums(total: Image, frames: seq<Image>)
    ensures Accumulate(total, frames).Ok? <==> Fits(frames, total.rows, total.cols)
    ensures Accumulate(total, frames).Err? ==> Accumulate(total, frames).error == ValueError
    ensures Accumulate(total, frames).Ok? ==>
      forall r, c | 0 <= r < total.rows && 0 <= c < total.cols ::
        Accumulate(total, frames).value.px[r][c]
          == total.px[r][c] + Columns.Sum(Along(frames, total.rows, total.cols, r, c))
    decreases |frames|
  {
    if frames != [] && Broadcastable(frames[0], total.rows, total.cols) {
      var next := Add(total, BroadcastTo(frames[0], total.rows, total.cols));
      AccumulateSums(next, frames[1..]);
      assert Fits(frames, total.rows, total.cols) <==> Fits(frames[1..], total.rows, total.cols) by {
        assert forall i | 1 <= i < |frames| :: frames[i] == frames[1..][i - 1];
      }
      if Fits(frames, total.rows, total.cols) {
        forall r, c | 0 <= r < total.rows && 0 <= c < total.cols
          ensures Accumulate(total, frames).value.px[r][c]
            == total.px[r][c] + Columns.Sum(Along(frames, total.rows, total.cols, r, c))
        {
          var col := Along(frames, total.rows, total.cols, r, c);
          assert col[1..] == Along(frames[1..], total.rows, total.cols, r, c);
        }
      }
    }
  }

  /**
    With real-valued pixels, the running accumulator of the `illumination`
    copy and the cube mean of the `playground` copy agree on every sequence,
    failures included, as long as no mean is cached yet. (The running total
    keeps the dtype of `self[0]`, so integer frames could wrap or refuse a
    float frame; pixels here are reals.)
   */
  lemma RunningMeanIsCubeMean(frames: seq<Image>, spatial: Spatial)
    requires "mean" !in spatial
    ensures RunningMean(frames, spatial).result == CubeMean(frames)
  {
    if |frames| > 0 {
      var rows, cols := frames[0].rows, frames[0].cols;
      var zero := Zeros(rows, cols);
      AccumulateSums(zero, frames);
      if Fits(frames, rows, cols) {
        var total := Accumulate(zero, frames).value;
        var cube := GatherCube(frames).value;
        var running := Divide(total, |frames| as real);
        forall r, c | 0 <= r < rows && 0 <= c < cols
          ensures running.px[r][c] == MeanImage(cube).px[r][c]
        {
          ColumnOfGather(frames, r, c);
        }
        SamePixels(running, MeanImage(cube));
      }
    }
  }

  /**
    Every pixel of a freshly computed median splits that pixel's values
    across the frames in halves: at least half are at most it and at least
    half are at least it.
   */
  lemma MedianSplitsEveryPixel(frames: seq<Image>, spatial: Spatial)
    requires "median" !in spatial
    requires Median(frames, spatial).result.Ok?
    ensures var m := Median(frames, spatial).result.value;
      m.rows == frames[0].rows && m.cols == frames[0].cols &&
      forall r, c | 0 <= r < m.rows && 0 <= c < m.cols ::
        2 * Columns.AtMost(Along(frames, m.rows, m.cols, r, c), m.px[r][c]) >= |frames| &&
        2 * Columns.AtLeast(Along(frames, m.rows, m.cols, r, c), m.px[r][c]) >= |frames|
  {
    var cube := GatherCube(frames).value;
    forall r, c | 0 <= r < cube.rows && 0 <= c < cube.cols
      ensures 2 * Columns.AtMost(Along(frames, cube.rows, cube.cols, r, c), MedianImage(cube).px[r][c]) >= |frames|
      ensures 2 * Columns.AtLeast(Along(frames, cube.rows, cube.cols, r, c), MedianImage(cube).px[r][c]) >= |frames|
    {
      ColumnOfGather(frames, r, c);
      Columns.MedianSplits(Column(cube, r, c));
    }
  }

  /**
    Once any sequence has stored a median, every other sequence's `median()`
    returns that same array, however different its own frames are.
   */
  lemma MedianCacheIsShared(a: seq<Image>, b: seq<Image>, spatial: Spatial)
    requires Median(a, spatial).result.Ok?
    ensures Median(b, Median(a, spatial).spatial).result == Median(a, spatial).result
  {
  }

  /**
    The shared cache answers for the wrong sequence: after a one-pixel
    sequence of 1.0 stores its median, a one-pixel sequence of 2.0 is told
    its median is 1.0, although the median of its own cube is 2.0.
   */
  lemma MedianCacheServesStaleImage()
    ensures Median([Fill(1, 1, 2.0)], Median([Fill(1, 1, 1.0)], map[]).spatial).result == Ok(Fill(1, 1, 1.0))
    ensures Median([Fill(1, 1, 2.0)], map[]).result == Ok(Fill(1, 1, 2.0))
  {
    var one, two := Fill(1, 1, 1.0), Fill(1, 1, 2.0);
    GatherKeepsFrames([one]);
    GatherKeepsFrames([two]);
    Columns.MedianOfConstant(Column(GatherCube([one]).value, 0, 0), 1.0);
    Columns.MedianOfConstant(Column(GatherCube([two]).value, 0, 0), 2.0);
    SamePixels(MedianImage(GatherCube([one]).value), one);
    SamePixels(MedianImage(GatherCube([two]).value), two);
  }

  /** The cube of `N` copies of one image has that image's values in every column. */
  lemma CopiesCube(im: Image, n: nat, r: nat, c: nat)
    requires n > 0 && r < im.rows && c < im.cols
    ensures GatherCube(seq(n, _ => im)).Ok?
    ensures var cube := GatherCube(seq(n, _ => im)).value;
      cube.rows == im.rows && cube.cols == im.cols &&
      forall i | 0 <= i < n :: Column(cube, r, c)[i] == im.px[r][c]
  {
    GatherKeepsFrames(seq(n, _ => im));
  }

  /** For `N` copies of one image, the median is that image. */
  lemma IdenticalFramesMedian(im: Image, n: nat, spatial: Spatial)
    requires n > 0 && "median" !in spatial
    ensures Median(seq(n, _ => im), spatial).result == Ok(im)
  {
    var frames := seq(n, _ => im);
    GatherKeepsFrames(frames);
    var cube := GatherCube(frames).value;
    forall r, c | 0 <= r < im.rows && 0 <= c < im.cols
      ensures MedianImage(cube).px[r][c] == im.px[r][c]
    {
      CopiesCube(im, n, r, c);
      Columns.MedianOfConstant(Column(cube, r, c), im.px[r][c]);
    }
    SamePixels(MedianImage(cube), im);
  }

  /** For `N` copies of one image, `sum` is `N` times it and `sum / N` is the image. */
  lemma IdenticalFramesSum(im: Image, n: nat)
    requires n > 0
    ensures Sum(seq(n, _ => im)).Ok?
    ensures forall r, c | 0 <= r < im.rows && 0 <= c < im.cols ::
      Sum(seq(n, _ => im)).value.px[r][c] == n as real * im.px[r][c]
    ensures Divide(Sum(seq(n, _ => im)).value, n as real) == im
  {
    var frames := seq(n, _ => im);
    GatherKeepsFrames(frames);
    var cube := GatherCube(frames).value;
    forall r, c | 0 <= r < im.rows && 0 <= c < im.cols
      ensures SumImage(cube).px[r][c] == n as real * im.px[r][c]
    {
      CopiesCube(im, n, r, c);
      Columns.SumOfConstant(Column(cube, r, c), im.px[r][c]);
    }
    SamePixels(Divide(SumImage(cube), n as real), im);
  }

  /** For `N` copies of one image, both means are that image. */
  lemma IdenticalFramesMean(im: Image, n: nat, spatial: Spatial)
    requires n > 0 && "mean" !in spatial
    ensures CubeMean(seq(n, _ => im)) == Ok(im)
    ensures RunningMean(seq(n, _ => im), spatial).result == Ok(im)
  {
    var frames := seq(n, _ => im);
    GatherKeepsFrames(frames);
    var cube := GatherCube(frames).value;
    forall r, c | 0 <= r < im.rows && 0 <= c < im.cols
      ensures MeanImage(cube).px[r][c] == im.px[r][c]
    {
      CopiesCube(im, n, r, c);
      Columns.SumOfConstant(Column(cube, r, c), im.px[r][c]);
    }
    SamePixels(MeanImage(cube), im);
    RunningMeanIsCubeMean(frames, spatial);
  }
}
