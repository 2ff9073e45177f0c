/**
  `imshowFrame` and the frames built on it (`CameraFrame` and the numbered
  cameras): the limits and title set at construction, the direction arrows,
  the resolution of a time to an image (`_get_image`), and the state that
  `plot` and `update` leave behind.

  Python dispatches `_transformimage` and `_transformxy` through the class
  hierarchy; here the class is the `Kind` of a frame. Drawing is not
  modelled: what `plot` and `update` put on the axes is recorded in
  `Plotted` (the image shown and its extent, the time label, the arrows,
  whether a colorbar was drawn), and `set_data` counts as one redraw.
 */
module ImshowFrame {
  import opened Results
  import opened Images
  import opened FrameBase
  import CameraFrame
  import ImageSequence

  /** The class of a frame: `imshowFrame`, `CameraFrame`, or `CameraNFrame`. */
  datatype Kind = Imshow | CameraBase | Numbered(camera: CameraFrame.Camera)

  /**
    A frame. `ingredients` is the `plotingredients` attribute, `None` while
    it is unassigned: the constructors hand their `plotingredients` argument
    on to `FrameBase.__init__`, whose `**kwargs` drops it, so only a caller
    assigning the attribute afterwards (here `f.(ingredients := Some(...))`)
    sets it.
   */
  datatype Frame = Frame(
    kind: Kind,
    source: Source,
    illustration: Option<Illustration>,
    ingredients: Option<set<string>>,
    limits: Limits,
    title: string)

  /** `key in self.plotingredients`, for a frame whose attribute is assigned. */
  predicate Includes(f: Frame, key: string) {
    f.ingredients.Some? && key in f.ingredients.value
  }

  /**
    `imshowFrame.__init__` limits: `xmin = ymin = 0` are set before the shape
    of `data[0]` is read, so they stay even when that read fails; `(ymax,
    xmax)` is that shape, or left unset.
   */
  function ImshowLimits(d: Data): (l: Limits)
    ensures l.xmin == Some(0) && l.ymin == Some(0)
    ensures N(d) > 0 && Items(d)[0].Some? ==>
      l.xmax == Some(Items(d)[0].value.cols) && l.ymax == Some(Items(d)[0].value.rows)
    ensures !(N(d) > 0 && Items(d)[0].Some?) ==> l.xmax.None? && l.ymax.None?
  {
    match Item(d, 0)
    case Ok(Some(im)) => Limits(Some(0), Some(im.cols), Some(0), Some(im.rows))
    case _ => Limits(Some(0), None, Some(0), None)
  }

  /** The display title: the explicit `title`, else the data's, else empty. */
  function Title(src: Source, title: Option<string>): (t: string)
    ensures title.Some? ==> t == title.value
    ensures title.None? && src.title.Some? ==> t == src.title.value
    ensures title.None? && src.title.None? ==> t == ""
  {
    match title
    case Some(t) => t
    case None => src.title.GetOr("")
  }

  /**
    Construction: camera frames replace the limits of `imshowFrame.__init__`
    with their own. The `ingredients` argument is accepted and dropped, so
    the new frame has no `plotingredients`.
   */
  function NewFrame(kind: Kind, src: Source, ill: Option<Illustration>, ingredients: set<string>, title: Option<string>): (f: Frame)
    ensures f.kind == kind && f.source == src && f.illustration == ill && f.ingredients.None?
    ensures f.title == Title(src, title)
    ensures kind.Imshow? ==> f.limits == ImshowLimits(src.data)
    ensures !kind.Imshow? ==> f.limits == CameraFrame.CameraLimits(src.data)
  {
    var limits := if kind.Imshow? then ImshowLimits(src.data) else CameraFrame.CameraLimits(src.data);
    Frame(kind, src, ill, None, limits, Title(src, title))
  }

  /**
    `_transformimage`: the identity of `FrameBase` for `imshowFrame` and
    `CameraFrame`, the camera geometry for a numbered camera.
   */
  function TransformImage(f: Frame, im: Image): (r: Option<Image>)
    ensures !f.kind.Numbered? ==> r == Some(im)
    ensures f.kind.Numbered? ==> r == CameraFrame.TransformImage(f.kind.camera, Orientation(f.illustration), im)
  {
    match f.kind
    case Numbered(c) => CameraFrame.TransformImage(c, Orientation(f.illustration), im)
    case _ => Some(im)
  }

  /** `_transformxy`, dispatched in the same way. */
  function TransformXY(f: Frame, p: Point): (r: Result<Point>)
    ensures !f.kind.Numbered? ==> r == Ok(p)
    ensures f.kind.Numbered? ==>
      r == CameraFrame.TransformXY(f.kind.camera, Orientation(f.illustration), f.limits.xmax, f.limits.ymax, p)
  {
    match f.kind
    case Numbered(c) => CameraFrame.TransformXY(c, Orientation(f.illustration), f.limits.xmax, f.limits.ymax, p)
    case _ => Ok(p)
  }

  /** Whether a point transform succeeds does not depend on the point. */
  lemma TransformXYUniform(f: Frame, p: Point, q: Point)
    ensures TransformXY(f, p).Ok? <==> TransformXY(f, q).Ok?
    ensures TransformXY(f, p).Err? ==> TransformXY(f, q) == TransformXY(f, p)
  {
  }

  function Abs(x: int): nat {
    if x < 0 then -x else x
  }

  /**
    The arrow length of `draw_arrows`: `ratio` times the longer span of the
    limits, or `50` when a limit is unset (the subtraction raises and the bare
    `except` catches it).
   */
  function ArrowLength(l: Limits, ratio: real): (len: real)
    ensures (l.xmin.None? || l.xmax.None? || l.ymin.None? || l.ymax.None?) ==> len == 50.0
  {
    if l.xmin.None? || l.xmax.None? || l.ymin.None? || l.ymax.None? then 50.0
    else
      var xspan := Abs(l.xmax.value - l.xmin.value);
      var yspan := Abs(l.ymax.value - l.ymin.value);
      ratio * (if xspan >= yspan then xspan else yspan) as real
  }

  /** The arrows of `draw_arrows`: tail, and for each axis its vector and label position. */
  datatype Arrows = Arrows(tail: Point, xvector: Point, xlabel: Point, yvector: Point, ylabel: Point)

  function Minus(a: Point, b: Point): Point {
    Point(a.x - b.x, a.y - b.y)
  }

  /**
    `draw_arrows(origin, ratio)`: each arrow starts at the transformed origin
    and points along the transform of a step of one arrow length along raw
    `x` or raw `y`; the labels sit 1.4 lengths out. A failing point
    transform propagates.
   */
  function DrawArrows(f: Frame, origin: Point, ratio: real): (r: Result<Arrows>)
    ensures r.Ok? <==> TransformXY(f, origin).Ok?
    ensures r.Err? ==> r.error == TransformXY(f, origin).error
  {
    var len := ArrowLength(f.limits, ratio);
    TransformXYUniform(f, origin, Point(origin.x + len, origin.y));
    TransformXYUniform(f, origin, Point(origin.x + len * 1.4, origin.y));
    TransformXYUniform(f, origin, Point(origin.x, origin.y + len));
    TransformXYUniform(f, origin, Point(origin.x, origin.y + len * 1.4));
    if TransformXY(f, origin).Err? then Err(TransformXY(f, origin).error)
    else
      var tail := TransformXY(f, origin).value;
      var xhead := TransformXY(f, Point(origin.x + len, origin.y)).value;
      var xlabel := TransformXY(f, Point(origin.x + len * 1.4, origin.y)).value;
      var yhead := TransformXY(f, Point(origin.x, origin.y + len)).value;
      var ylabel := TransformXY(f, Point(origin.x, origin.y + len * 1.4)).value;
      Ok(Arrows(tail, Minus(xhead, tail), xlabel, Minus(yhead, tail), ylabel))
  }

  /**
    The arrows point along the display directions of raw `+x` and `+y`: right
    and up for an untransformed frame, up and right for cameras 1 and 2, down
    and left for cameras 3 and 4, each one arrow length long.
   */
  lemma ArrowVectors(f: Frame, origin: Point, ratio: real)
    requires DrawArrows(f, origin, ratio).Ok?
    ensures var a := DrawArrows(f, origin, ratio).value;
      var len := ArrowLength(f.limits, ratio);
      && a.tail == TransformXY(f, origin).value
      && (!f.kind.Numbered? ==> a.xvector == Point(len, 0.0) && a.yvector == Point(0.0, len))
      && (f.kind.Numbered? && CameraFrame.GeometryOf(f.kind.camera) == CameraFrame.Swapped ==>
            a.xvector == Point(0.0, len) && a.yvector == Point(len, 0.0))
      && (f.kind.Numbered? && CameraFrame.GeometryOf(f.kind.camera) == CameraFrame.Reversed ==>
            a.xvector == Point(0.0, -len) && a.yvector == Point(-len, 0.0))
  {
  }

  /**
    The arrows of a camera frame are `ratio` times its longer side: that of
    its first image, or 4272 without one.
   */
  lemma CameraArrowLength(d: Data, ratio: real)
    ensures N(d) > 0 && Items(d)[0].Some? ==>
      var im := Items(d)[0].value;
      ArrowLength(CameraFrame.CameraLimits(d), ratio) == ratio * (if im.cols >= im.rows then im.cols else im.rows) as real
    ensures !(N(d) > 0 && Items(d)[0].Some?) ==> ArrowLength(CameraFrame.CameraLimits(d), ratio) == ratio * 4272.0
  {
  }

  /** A numbered camera outside a horizontal illustration cannot draw its arrows. */
  lemma NumberedArrowsNeedHorizontal(f: Frame, origin: Point, ratio: real)
    requires f.kind.Numbered? && Orientation(f.illustration) != "horizontal"
    ensures DrawArrows(f, origin, ratio) == Err(UnboundLocalError)
  {
  }

  /** What `_get_image` returns: the image (if any) and the time it belongs to. */
  datatype Resolved = Resolved(image: Option<Image>, time: Option<real>)

  /** The `(None, None)` of a swallowed exception. */
  const Nothing: Resolved := Resolved(None, None)

  /** The exceptions `_get_image` swallows. */
  predicate Swallowed(e: Error) {
    e == IndexError || e == AssertionError || e == ValueError
  }

  /** The time `_get_image` looks up: the requested one, or else the first time. */
  function Requested(f: Frame, time: Option<real>): (t: Option<real>)
    ensures time.Some? ==> t == time
    ensures time.None? && |GetTimes(f.source)| > 0 ==> t == Some(GetTimes(f.source)[0])
    ensures time.None? && |GetTimes(f.source)| == 0 ==> t.None?
  {
    if time.Some? then time
    else if |GetTimes(f.source)| > 0 then Some(GetTimes(f.source)[0])
    else None
  }

  /**
    `_get_image(time)`: look up the timestep of the requested time, read and
    transform `data[ts]`, and pair it with `times[ts]`. An `IndexError` (no
    first time, `ts` beyond the data or the times), an `AssertionError` (a
    `None` item) or a `ValueError` gives `(None, None)`; any other exception
    of the lookup propagates.
   */
  function GetImage(f: Frame, time: Option<real>): (r: Result<Resolved>)
    ensures r.Err? <==> (Requested(f, time).Some? &&
      f.source.find(Requested(f, time)).Err? && !Swallowed(f.source.find(Requested(f, time)).error))
    ensures r.Err? ==> r.error == f.source.find(Requested(f, time)).error
    ensures r.Ok? && r.value.image.Some? ==> r.value.time.Some?
  {
    var times := GetTimes(f.source);
    match Requested(f, time)
    case None => Ok(Nothing)
    case Some(t) =>
      match f.source.find(Some(t))
      case Err(e) => if Swallowed(e) then Ok(Nothing) else Err(e)
      case Ok(ts) =>
        match Item(f.source.data, ts)
        case Err(_) => Ok(Nothing)
        case Ok(None) => Ok(Nothing)
        case Ok(Some(raw)) =>
          if ts < |times| then Ok(Resolved(TransformImage(f, raw), Some(times[ts])))
          else Ok(Nothing)
  }

  /**
    A resolved time is the time of the looked-up timestep, and a resolved
    image is the transformed item at that timestep; nothing is resolved
    unless the lookup, the item and the time all exist.
   */
  lemma GetImageResolves(f: Frame, time: Option<real>)
    requires GetImage(f, time).Ok?
    ensures var r := GetImage(f, time).value;
      var q := Requested(f, time);
      (r.time.Some? <==>
        q.Some? && f.source.find(q).Ok? && f.source.find(q).value < N(f.source.data) &&
        Items(f.source.data)[f.source.find(q).value].Some? &&
        f.source.find(q).value < |GetTimes(f.source)|) &&
      (r.time.Some? ==>
        var ts := f.source.find(q).value;
        r.time.value == GetTimes(f.source)[ts] &&
        r.image == TransformImage(f, Items(f.source.data)[ts].value))
  {
  }

  /** With no time given, `_get_image` resolves exactly as for the first time. */
  lemma NoneIsFirstTime(f: Frame)
    requires |GetTimes(f.source)| > 0
    ensures GetImage(f, None) == GetImage(f, Some(GetTimes(f.source)[0]))
  {
  }

  /**
    A numbered camera outside a horizontal illustration resolves no image,
    though it still resolves the time.
   */
  lemma NumberedImageNeedsHorizontal(f: Frame, time: Option<real>)
    requires f.kind.Numbered? && Orientation(f.illustration) != "horizontal"
    requires GetImage(f, time).Ok?
    ensures GetImage(f, time).value.image.None?
  {
  }

  /** The time label: blank without a time, else the offset and the time since it. */
  datatype Label = Blank | Stamp(offset: real, elapsed: real)

  /** An image on the axes and its `extent = [0, cols, 0, rows]`. */
  datatype Shown = Shown(image: Image, extent: (int, int, int, int))

  /** The `plotted` dictionary: what `plot` drew, by key. */
  datatype Plotted = Plotted(shown: Option<Shown>, time: Option<Label>, arrows: Option<Arrows>, colorbar: bool)

  /** `currenttimestep`: absent until `plot` sets it, and possibly `None`. */
  datatype Cursor = Unset | At(step: Option<nat>)

  /**
    The mutable state of a frame: `plotted` (`None` until `plot`), the cursor,
    the `_offset` memo, and how many times `update` redrew the image.
   */
  datatype State = State(plotted: Option<Plotted>, cursor: Cursor, offset: Option<real>, redraws: nat)

  const Fresh: State := State(None, Unset, None, 0)

  /**
    The result of a `plot`, and the shared `spatial` cache as it leaves it
    (a median computed before a later exception stays cached).
   */
  datatype Outcome = Outcome(result: Result<State>, spatial: ImageSequence.Spatial)

  /**
    `_timestring(time)`: the offset and the time elapsed since it, which add
    back up to the time; reading the offset stores it.
   */
  function Stamped(f: Frame, t: real, memo: Option<real>): (r: (Label, Option<real>))
    ensures r.0.Stamp? && r.0.offset + r.0.elapsed == t
    ensures r.1 == Some(r.0.offset)
    ensures memo.Some? ==> r.0.offset == memo.value
  {
    var o := Offset(memo, f.illustration, GetTimes(f.source));
    (Stamp(o.value, t - o.value), o.memo)
  }

  /**
    The first step of `_cmap_norm_ticks`: reading
    `self.illustration.sharecolorbar`, which raises `AttributeError` for a
    frame built without an illustration, or whose illustration lacks the
    flag. The colour map, normalisation and ticks it goes on to return are
    not modelled; the result is the flag.
   */
  function ColorScale(f: Frame): (r: Result<bool>)
    ensures r.Err? <==> f.illustration.None? || f.illustration.value.sharecolorbar.None?
    ensures r.Err? ==> r.error == AttributeError
    ensures r.Ok? ==> r.value == f.illustration.value.sharecolorbar.value
  {
    match f.illustration
    case None => Err(AttributeError)
    case Some(ill) => if ill.sharecolorbar.None? then Err(AttributeError) else Ok(ill.sharecolorbar.value)
  }

  /** Whether `plot` shows the median: `np.size(image) < 10000 or N < 50`. */
  predicate Small(f: Frame, im: Image) {
    Size(im) < 10000 || N(f.source.data) < 50
  }

  /**
    The image `plot` shows for a resolved image `im`: the data's median when
    the assertion holds and the data is an `Image_Sequence`, else `im` (the
    `AssertionError` and the `AttributeError` of a data without `median`
    are caught; the median's own exceptions are not).
   */
  function FirstImage(f: Frame, im: Image, spatial: ImageSequence.Spatial): (out: ImageSequence.Cached)
    ensures out.result.Err? ==> out.spatial == spatial
  {
    if Small(f, im) && f.source.data.ImageData? then ImageSequence.Median(f.source.data.frames, spatial)
    else ImageSequence.Cached(Ok(im), spatial)
  }

  /**
    `imshowFrame.plot`, given the outcome of the frame's `_get_image` and of
    its timestep lookup (so that `ZoomFrame` can reuse it with its own). It
    starts a new `plotted`; once `_get_image` succeeds, reading an
    unassigned `plotingredients` raises `AttributeError`; if `'image'` is an
    ingredient and there is an image, it reads the colour scale (which fails
    without an illustration, before any median is computed) and shows the
    first image with the
    resolved image's extent; draws no colorbar, because its guard asks for
    the key `'imshow'` that nothing sets; labels the time, draws the arrows,
    and sets the cursor to the lookup's timestep, or `None` if the lookup
    raised.
   */
  function PlotWith(f: Frame, resolved: Result<Resolved>, step: Result<nat>,
                    s: State, spatial: ImageSequence.Spatial): (out: Outcome)
    ensures resolved.Err? ==> out == Outcome(Err(resolved.error), spatial)
    ensures resolved.Ok? && f.ingredients.None? ==> out == Outcome(Err(AttributeError), spatial)
    ensures resolved.Ok? && Includes(f, "image") && resolved.value.image.Some? && ColorScale(f).Err? ==>
      out == Outcome(Err(AttributeError), spatial)
  {
    if resolved.Err? then Outcome(Err(resolved.error), spatial)
    else if f.ingredients.None? then Outcome(Err(AttributeError), spatial)
    else
      var res := resolved.value;
      var drawImage := Includes(f, "image") && res.image.Some?;
      if drawImage && ColorScale(f).Err? then Outcome(Err(ColorScale(f).error), spatial)
      else
        var first := if drawImage then FirstImage(f, res.image.value, spatial)
                     else ImageSequence.Cached(Ok(Zeros(0, 0)), spatial);
        if first.result.Err? then Outcome(Err(first.result.error), first.spatial)
        else
          var shown := if drawImage
            then Some(Shown(first.result.value, (0, res.image.value.cols, 0, res.image.value.rows)))
            else None;
          var stamp := Stamped(f, res.time.GetOr(0.0), s.offset);
          var tag := if !Includes(f, "time") then None
            else if res.time.None? then Some(Blank)
            else Some(stamp.0);
          var memo := if Includes(f, "time") && res.time.Some? then stamp.1 else s.offset;
          var arrows := if Includes(f, "arrows") then DrawArrows(f, Point(0.0, 0.0), 0.05) else Ok(Arrows(Point(0.0, 0.0), Point(0.0, 0.0), Point(0.0, 0.0), Point(0.0, 0.0), Point(0.0, 0.0)));
          if arrows.Err? then Outcome(Err(arrows.error), first.spatial)
          else
            var drawn := if Includes(f, "arrows") then Some(arrows.value) else None;
            var cursor := if step.Ok? then At(Some(step.value)) else At(None);
            Outcome(Ok(State(Some(Plotted(shown, tag, drawn, false)), cursor, memo, s.redraws)), first.spatial)
  }

  /** `_find_timestep` of an `imshowFrame`: the data's lookup. */
  function Lookup(f: Frame, time: Option<real>): Result<nat> {
    f.source.find(time)
  }

  /**
    `imshowFrame.plot(time)`: the exceptions of `_get_image`, of the unassigned
    `plotingredients` and of the colour scale leave the cache untouched; a success leaves the cursor at the
    requested time's timestep, or `None` when its lookup raised.
   */
  function Plot(f: Frame, time: Option<real>, s: State, spatial: ImageSequence.Spatial): (out: Outcome)
    ensures GetImage(f, time).Err? ==> out == Outcome(Err(GetImage(f, time).error), spatial)
    ensures GetImage(f, time).Ok? && f.ingredients.None? ==> out == Outcome(Err(AttributeError), spatial)
    ensures (GetImage(f, time).Ok? && Includes(f, "image") && GetImage(f, time).value.image.Some? &&
             f.illustration.None?) ==> out == Outcome(Err(AttributeError), spatial)
    ensures out.result.Ok? ==>
      out.result.value.cursor == (if Lookup(f, time).Ok? then At(Some(Lookup(f, time).value)) else At(None))
  {
    PlotWith(f, GetImage(f, time), Lookup(f, time), s, spatial)
  }

  /**
    After a successful plot: a colorbar is never drawn; the image is shown
    exactly when it is an ingredient and one was resolved, with the resolved
    image's extent; the cursor is the looked-up timestep of the requested
    time itself (not of the first time it defaults to), or `None`; and the
    redraw count is kept.
   */
  lemma PlotState(f: Frame, resolved: Result<Resolved>, step: Result<nat>, s: State, spatial: ImageSequence.Spatial)
    requires PlotWith(f, resolved, step, s, spatial).result.Ok?
    ensures resolved.Ok?
    ensures f.ingredients.Some?
    ensures Includes(f, "image") && resolved.value.image.Some? ==> ColorScale(f).Ok?
    ensures var t := PlotWith(f, resolved, step, s, spatial).result.value;
      && t.plotted.Some?
      && !t.plotted.value.colorbar
      && (t.plotted.value.shown.Some? <==> Includes(f, "image") && resolved.value.image.Some?)
      && (t.plotted.value.shown.Some? ==>
            t.plotted.value.shown.value.extent == (0, resolved.value.image.value.cols, 0, resolved.value.image.value.rows))
      && (t.plotted.value.time.Some? <==> Includes(f, "time"))
      && (t.plotted.value.time == Some(Blank) <==> Includes(f, "time") && resolved.value.time.None?)
      && (t.plotted.value.arrows.Some? <==> Includes(f, "arrows"))
      && t.cursor == (if step.Ok? then At(Some(step.value)) else At(None))
      && t.redraws == s.redraws
  {
  }

  /**
    A frame as its constructor leaves it cannot be plotted: once `_get_image`
    succeeds, `plot` reads the unassigned `plotingredients` and raises
    `AttributeError`, before the colour scale or any median, so the shared
    cache is untouched.
   */
  lemma FreshFramePlotFails(kind: Kind, src: Source, ill: Option<Illustration>, ingredients: set<string>,
                            title: Option<string>, time: Option<real>, s: State, spatial: ImageSequence.Spatial)
    requires GetImage(NewFrame(kind, src, ill, ingredients, title), time).Ok?
    ensures Plot(NewFrame(kind, src, ill, ingredients, title), time, s, spatial) == Outcome(Err(AttributeError), spatial)
  {
  }

  /**
    The median substitution: a resolved image is replaced by the data's
    median whenever `size < 10000` or `N < 50` and the data has a median
    (served from the shared cache when present); it is shown as resolved only
    when both thresholds are reached or the data has no median.
   */
  lemma PlotSubstitutesMedian(f: Frame, time: Option<real>, s: State, spatial: ImageSequence.Spatial)
    requires Includes(f, "image")
    requires GetImage(f, time).Ok? && GetImage(f, time).value.image.Some?
    requires Plot(f, time, s, spatial).result.Ok?
    ensures ColorScale(f).Ok?
    ensures var im := GetImage(f, time).value.image.value;
      var shown := Plot(f, time, s, spatial).result.value.plotted.value.shown.value.image;
      && (Small(f, im) && f.source.data.ImageData? ==>
            shown == ImageSequence.Median(f.source.data.frames, spatial).result.value &&
            Plot(f, time, s, spatial).spatial == ImageSequence.Median(f.source.data.frames, spatial).spatial)
      && (Small(f, im) && f.source.data.ImageData? && "median" in spatial ==> shown == spatial["median"])
      && (!(Small(f, im) && f.source.data.ImageData?) ==> shown == im && Plot(f, time, s, spatial).spatial == spatial)
  {
  }

  /**
    `imshowFrame.update(time)`: the lookup's exceptions propagate; without an
    image nothing changes; at a timestep other than the cursor the image is
    replaced (keeping its extent) and the time label re-stamped; the cursor
    itself is never moved. Reading a cursor that `plot` never set raises
    `AttributeError`, a `plotted` that is still `None` `TypeError`, and a
    missing `'image'` or `'time'` entry `KeyError`.
   */
  function Update(f: Frame, time: Option<real>, s: State): (r: Result<State>)
    ensures r.Ok? ==> r.value.cursor == s.cursor
  {
    var ts :- Lookup(f, time);
    var res :- GetImage(f, time);
    if res.image.None? then Ok(s)
    else if s.cursor.Unset? then Err(AttributeError)
    else if s.cursor.step == Some(ts) then Ok(s)
    else if s.plotted.None? then Err(TypeError)
    else if s.plotted.value.shown.None? then Err(KeyError)
    else if s.plotted.value.time.None? then Err(KeyError)
    else
      var p := s.plotted.value;
      var stamp := Stamped(f, res.time.value, s.offset);
      var shown := Shown(res.image.value, p.shown.value.extent);
      Ok(State(Some(p.(shown := Some(shown), time := Some(stamp.0))), s.cursor, stamp.1, s.redraws + 1))
  }

  /**
    What `update` does to a state: nothing when no image resolves or the
    timestep is the cursor's; otherwise one redraw that shows the resolved
    image itself (no median substitution) with the time label of its time.
   */
  lemma UpdateRedraws(f: Frame, time: Option<real>, s: State)
    requires Update(f, time, s).Ok?
    ensures Lookup(f, time).Ok? && GetImage(f, time).Ok?
    ensures var t := Update(f, time, s).value;
      var res := GetImage(f, time).value;
      && (res.image.None? || s.cursor.step == Some(Lookup(f, time).value) ==> t == s)
      && (res.image.Some? && s.cursor.step != Some(Lookup(f, time).value) ==>
            && t.redraws == s.redraws + 1
            && t.plotted.value.shown.value.image == res.image.value
            && t.plotted.value.shown.value.extent == s.plotted.value.shown.value.extent
            && t.plotted.value.time.value == Stamped(f, res.time.value, s.offset).0
            && t.plotted.value.arrows == s.plotted.value.arrows)
  {
  }

  /**
    Because `update` never moves the cursor, updating twice to a timestep that
    differs from the one `plot` recorded redraws twice.
   */
  lemma UpdateTwiceRedrawsTwice(f: Frame, time: Option<real>, s: State)
    requires Update(f, time, s).Ok? && Update(f, time, s).value != s
    ensures Update(f, time, Update(f, time, s).value).Ok?
    ensures Update(f, time, Update(f, time, s).value).value.redraws == s.redraws + 2
  {
    var t := Update(f, time, s).value;
    var o := Offset(s.offset, f.illustration, GetTimes(f.source));
    assert t.offset == o.memo;
  }
}
