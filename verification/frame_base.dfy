/**
  `FrameBase`: what every frame knows about its data and its illustration,
  before any drawing happens — the data's images and time axis, the time
  zero-point `offset`, the orientation of the illustration, and the shared
  timeline `_timesandcadence`.

  The underlying `Sequence` class is not part of this model. Its members
  enter as given values: the items `self[i]`, the optional `time` attribute,
  and `_find_timestep`, an uninterpreted function from a requested time
  (`None` included) to a timestep or an exception. Times are reals on one
  time scale; the JD/GPS conversions of `astropy.time.Time` are not modelled.
 */
module FrameBase {
  import opened Results
  import opened Images
  import opened Sorting
  import Timeline

  /** A point `(x, y)` of a frame: `x` runs along columns, `y` along rows. */
  datatype Point = Point(x: real, y: real)

  /**
    The data of a frame, as `make_sequence` leaves it: an `Image_Sequence`
    (which has the reductions `median`, `sum`, `mean`), or some other
    sequence whose items may be `None`.
   */
  datatype Data =
    | ImageData(frames: seq<Image>)
    | OtherData(items: seq<Option<Image>>)

  /** The items `self[0] .. self[N-1]`. */
  function Items(d: Data): (items: seq<Option<Image>>)
    ensures d.ImageData? ==> |items| == |d.frames| && forall i | 0 <= i < |items| :: items[i] == Some(d.frames[i])
    ensures d.OtherData? ==> items == d.items
  {
    match d
    case ImageData(frames) => seq(|frames|, i requires 0 <= i < |frames| => Some(frames[i]))
    case OtherData(items) => items
  }

  /** `N`, the number of items. */
  function N(d: Data): nat {
    |Items(d)|
  }

  /** `self[i]`, which raises `IndexError` outside `[0, N)`. */
  function Item(d: Data, i: nat): (r: Result<Option<Image>>)
    ensures r.Ok? <==> i < N(d)
    ensures r.Err? ==> r.error == IndexError
    ensures r.Ok? && d.ImageData? ==> r.value == Some(d.frames[i])
  {
    if i < N(d) then Ok(Items(d)[i]) else Err(IndexError)
  }

  /**
    What a frame reads from its data: the items, the `time` attribute
    (`None` when the data has none), the timestep lookup `_find_timestep`,
    and the `titlefordisplay` attribute (`None` when the data has none).
   */
  datatype Source = Source(
    data: Data,
    time: Option<seq<real>>,
    find: Option<real> -> Result<nat>,
    title: Option<string>)

  /** `_gettimes`: the data's time axis, or an empty one when it has none. */
  function GetTimes(src: Source): (t: seq<real>)
    ensures src.time.Some? ==> t == src.time.value
    ensures src.time.None? ==> t == []
  {
    src.time.GetOr([])
  }

  /**
    What a frame reads from its illustration: the `orientation` attribute,
    the result of `_gettimes` and the `sharecolorbar` flag (`None` where the
    illustration lacks them).
   */
  datatype Illustration = Illustration(orientation: Option<string>, times: Option<seq<real>>,
                                       sharecolorbar: Option<bool>)

  /**
    `_get_orientation`: the illustration's orientation; any failure (no
    illustration, no attribute) gives `"vertical"`.
   */
  function Orientation(ill: Option<Illustration>): (o: string)
    ensures ill.Some? && ill.value.orientation.Some? ==> o == ill.value.orientation.value
    ensures (ill.None? || ill.value.orientation.None?) ==> o == "vertical"
  {
    match ill
    case None => "vertical"
    case Some(i) => i.orientation.GetOr("vertical")
  }

  /** The illustration's times; no illustration or no times read as none. */
  function IllustrationTimes(ill: Option<Illustration>): seq<real> {
    match ill
    case None => []
    case Some(i) => i.times.GetOr([])
  }

  /** The offset together with the `_offset` memo as the call leaves it. */
  datatype Offsetting = Offsetting(value: real, memo: Option<real>)

  /**
    `offset`: the stored `_offset` if there is one; otherwise the earliest
    illustration time, else (on `AttributeError` or `ValueError`) the earliest
    time of this frame, else (on `ValueError`) `0.0` — and the value found is
    stored.
   */
  function Offset(memo: Option<real>, ill: Option<Illustration>, own: seq<real>): (r: Offsetting)
    ensures r.memo == Some(r.value)
    ensures memo.Some? ==> r.value == memo.value
    ensures memo.None? && |IllustrationTimes(ill)| > 0 ==>
      r.value in IllustrationTimes(ill) && forall t | t in IllustrationTimes(ill) :: r.value <= t
    ensures memo.None? && |IllustrationTimes(ill)| == 0 && |own| > 0 ==>
      r.value in own && forall t | t in own :: r.value <= t
    ensures memo.None? && |IllustrationTimes(ill)| == 0 && |own| == 0 ==> r.value == 0.0
  {
    if memo.Some? then Offsetting(memo.value, memo)
    else
      var v := match Least(IllustrationTimes(ill))
        case Ok(m) => m
        case Err(_) => match Least(own)
          case Ok(m) => m
          case Err(_) => 0.0;
      Offsetting(v, Some(v))
  }

  /**
    The offset is written once: after the first call, every later call returns
    the same value and keeps the memo, whatever the times are by then.
   */
  lemma OffsetWriteOnce(memo: Option<real>, ill: Option<Illustration>, own: seq<real>,
                        laterIll: Option<Illustration>, laterOwn: seq<real>)
    ensures var first := Offset(memo, ill, own);
      Offset(first.memo, laterIll, laterOwn) == first
  {
  }

  /**
    `_timesandcadence` of a frame: the timeline of its own times, memoized in
    the frame's `_precaculatedtimesandcadence`.
   */
  function TimesAndCadence(src: Source, round: Option<real>, memo: Timeline.Memo): (out: Timeline.Memoized)
    requires round.Some? ==> round.value != 0.0
    ensures round in memo ==> out == Timeline.Memoized(Ok(memo[round]), memo)
    ensures round.Some? && round !in memo && src.time.Some? ==>
      out.result == Timeline.Canonical(src.time.value, Timeline.Abs(round.value))
  {
    Timeline.TimesAndCadence(GetTimes(src), round, memo)
  }

  /**
    A frame whose data has no time axis gets an empty one, so a request that
    misses the memo fails with `ValueError` from `np.min` and stores nothing.
   */
  lemma NoTimeAxisFails(src: Source, round: Option<real>, memo: Timeline.Memo)
    requires round.Some? ==> round.value != 0.0
    requires src.time.None? && round !in memo
    ensures TimesAndCadence(src, round, memo) == Timeline.Memoized(Err(ValueError), memo)
  {
    assert GetTimes(src) == [];
    Timeline.InferRoundIsLeastGap([]);
  }

  /** The axis limits `xmin, xmax, ymin, ymax`; `None` where unset. */
  datatype Limits = Limits(xmin: Option<int>, xmax: Option<int>, ymin: Option<int>, ymax: Option<int>)
}
