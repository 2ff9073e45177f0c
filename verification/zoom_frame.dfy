/**
  `ZoomFrame`: a frame that shows a cutout of another frame's image — a
  magnifying glass put down on a `source` frame.

  `Cutout2D` is not part of this model: it enters as an uninterpreted
  function from the source image (possibly `None`), the position and the size
  to an image or an exception.
 */
module ZoomFrame {
  import opened Results
  import opened Images
  import opened FrameBase
  import opened ImshowFrame
  import ImageSequence

  /** `Cutout2D(image, position, size, mode='partial').data`. */
  type Cutout = (Option<Image>, Point, Point) -> Result<Image>

  /**
    A zoom frame: its own `imshowFrame` part, the source frame it zooms into,
    the `position` `(x, y)` of the zoom's centre and its `size`, and how its
    position prints.
   */
  datatype Zoom = Zoom(own: Frame, source: Frame, position: Point, size: Point, positionText: string,
                      aspect: real, cutout: Cutout)

  /** `aspectratio = float(size[1]) / size[0]`, which raises `ZeroDivisionError` on a zero `size[0]`. */
  function AspectRatio(size: Point): (r: Result<real>)
    ensures r.Err? <==> size.x == 0.0
    ensures r.Err? ==> r.error == ZeroDivisionError
    ensures r.Ok? ==> r.value * size.x == size.y
  {
    if size.x == 0.0 then Err(ZeroDivisionError) else Ok(size.y / size.x)
  }

  /** `titlefordisplay = 'Zoom | <position>'`, whatever title was given. */
  function ZoomTitle(positionText: string): (t: string)
    ensures |t| == 7 + |positionText|
    ensures t[..7] == "Zoom | " && t[7..] == positionText
  {
    "Zoom | " + positionText
  }

  /**
    `ZoomFrame.__init__`: an `imshowFrame` over the zoom's own data whose
    title is then replaced by the zoom title, with the aspect ratio of
    `size`; a zero width raises `ZeroDivisionError`.
   */
  function NewZoom(data: Source, ill: Option<Illustration>, ingredients: set<string>, title: Option<string>,
                   source: Frame, position: Point, size: Point, positionText: string, cutout: Cutout): (r: Result<Zoom>)
    ensures r.Ok? <==> size.x != 0.0
    ensures r.Err? ==> r.error == ZeroDivisionError
    ensures r.Ok? ==> var z := r.value;
      && z.own.title == ZoomTitle(positionText)
      && z.own.kind == Imshow && z.own.source == data && z.own.ingredients.None?
      && z.own.limits == ImshowLimits(data.data)
      && z.aspect * size.x == size.y
      && z.position == position && z.size == size
  {
    var aspect :- AspectRatio(size);
    var own := NewFrame(Imshow, data, ill, ingredients, title);
    Ok(Zoom(own.(title := ZoomTitle(positionText)), source, position, size, positionText, aspect, cutout))
  }

  /** `_find_timestep`: the source frame's lookup, unchanged. */
  function Lookup(z: Zoom, time: Option<real>): Result<nat> {
    ImshowFrame.Lookup(z.source, time)
  }

  /**
    Two delegations deep: a zoom's timestep is the one the data of its source
    frame finds, whatever the zoom's own data are.
   */
  lemma LookupDelegates(z: Zoom, time: Option<real>, other: Source)
    ensures Lookup(z, time) == z.source.source.find(time)
    ensures Lookup(z.(own := z.own.(source := other)), time) == Lookup(z, time)
  {
  }

  /**
    `_get_image(time)`: the cutout of the source frame's image at `(position,
    size)`, paired with the time the source resolved. Nothing is swallowed
    here: the source's exceptions and the cutout's propagate.
   */
  function GetImage(z: Zoom, time: Option<real>): (r: Result<Resolved>)
    ensures ImshowFrame.GetImage(z.source, time).Err? ==> r == ImshowFrame.GetImage(z.source, time)
    ensures r.Ok? ==> ImshowFrame.GetImage(z.source, time).Ok?
  {
    var big :- ImshowFrame.GetImage(z.source, time);
    var cut :- z.cutout(big.image, z.position, z.size);
    Ok(Resolved(Some(cut), big.time))
  }

  /**
    A zoom resolves the cutout of what its source resolves: the same time,
    and an image exactly when the cutout succeeds.
   */
  lemma GetImageCutsSource(z: Zoom, time: Option<real>)
    requires ImshowFrame.GetImage(z.source, time).Ok?
    ensures var big := ImshowFrame.GetImage(z.source, time).value;
      && (GetImage(z, time).Ok? <==> z.cutout(big.image, z.position, z.size).Ok?)
      && (GetImage(z, time).Ok? ==>
            GetImage(z, time).value == Resolved(Some(z.cutout(big.image, z.position, z.size).value), big.time))
      && (GetImage(z, time).Err? ==> GetImage(z, time).error == z.cutout(big.image, z.position, z.size).error)
  {
  }

  /**
    `ZoomFrame.plot(time)`: `imshowFrame.plot` with the zoom's own image
    resolution and lookup. The box drawn on the source's axes is not
    modelled.
   */
  function Plot(z: Zoom, time: Option<real>, s: State, spatial: ImageSequence.Spatial): (out: Outcome)
    ensures GetImage(z, time).Err? ==> out == Outcome(Err(GetImage(z, time).error), spatial)
    ensures GetImage(z, time).Ok? && z.own.ingredients.None? ==> out == Outcome(Err(AttributeError), spatial)
    ensures (GetImage(z, time).Ok? && Includes(z.own, "image") && GetImage(z, time).value.image.Some? &&
             z.own.illustration.None?) ==> out == Outcome(Err(AttributeError), spatial)
    ensures out.result.Ok? ==>
      out.result.value.cursor == (if Lookup(z, time).Ok? then At(Some(Lookup(z, time).value)) else At(None))
  {
    PlotWith(z.own, GetImage(z, time), Lookup(z, time), s, spatial)
  }

  /**
    A zoom as its constructor leaves it cannot be plotted either: its
    `plotingredients` argument is dropped too, so a `plot` whose image
    resolves raises `AttributeError` with the cache untouched.
   */
  lemma FreshZoomPlotFails(data: Source, ill: Option<Illustration>, ingredients: set<string>, title: Option<string>,
                           source: Frame, position: Point, size: Point, positionText: string, cutout: Cutout,
                           time: Option<real>, s: State, spatial: ImageSequence.Spatial)
    requires NewZoom(data, ill, ingredients, title, source, position, size, positionText, cutout).Ok?
    requires GetImage(NewZoom(data, ill, ingredients, title, source, position, size, positionText, cutout).value, time).Ok?
    ensures var z := NewZoom(data, ill, ingredients, title, source, position, size, positionText, cutout).value;
      Plot(z, time, s, spatial) == Outcome(Err(AttributeError), spatial)
  {
  }

  /**
    `ZoomFrame.update(time)`: like `imshowFrame.update`, but the time label is
    re-stamped only if one was plotted, and the cursor is always moved to the
    new timestep once an image resolves.
   */
  function Update(z: Zoom, time: Option<real>, s: State): (r: Result<State>)
    ensures r.Ok? ==> Lookup(z, time).Ok? && GetImage(z, time).Ok?
    ensures r.Ok? && GetImage(z, time).value.image.Some? ==> r.value.cursor == At(Some(Lookup(z, time).value))
    ensures r.Ok? && GetImage(z, time).value.image.None? ==> r.value == s
  {
    var ts :- Lookup(z, time);
    var res :- GetImage(z, time);
    if res.image.None? then Ok(s)
    else if s.cursor.Unset? then Err(AttributeError)
    else if s.cursor.step == Some(ts) then Ok(s.(cursor := At(Some(ts))))
    else if s.plotted.None? then Err(TypeError)
    else if s.plotted.value.shown.None? then Err(KeyError)
    else
      var p := s.plotted.value;
      var shown := Shown(res.image.value, p.shown.value.extent);
      if p.time.None? then
        Ok(State(Some(p.(shown := Some(shown))), At(Some(ts)), s.offset, s.redraws + 1))
      else if res.time.None? then Err(AttributeError)
      else
        var stamp := Stamped(z.own, res.time.value, s.offset);
        Ok(State(Some(p.(shown := Some(shown), time := Some(stamp.0))), At(Some(ts)), stamp.1, s.redraws + 1))
  }

  /**
    A zoom update redraws only at a timestep other than the cursor's, shows
    the cutout itself, and leaves an absent time label absent.
   */
  lemma UpdateRedraws(z: Zoom, time: Option<real>, s: State)
    requires Update(z, time, s).Ok?
    ensures Lookup(z, time).Ok? && GetImage(z, time).Ok?
    ensures var t := Update(z, time, s).value;
      var res := GetImage(z, time).value;
      && (res.image.None? ==> t == s)
      && (res.image.Some? && s.cursor.step == Some(Lookup(z, time).value) ==> t == s)
      && (res.image.Some? && s.cursor.step != Some(Lookup(z, time).value) ==>
            && t.redraws == s.redraws + 1
            && t.plotted.value.shown.value.image == res.image.value
            && (s.plotted.value.time.None? ==> t.plotted.value.time.None? && t.offset == s.offset))
  {
  }

  /**
    Because a zoom update moves the cursor, a second update to the same time
    changes nothing: repeated updates at one timestep are no-ops.
   */
  lemma UpdateIdempotent(z: Zoom, time: Option<real>, s: State)
    requires Update(z, time, s).Ok?
    ensures Update(z, time, Update(z, time, s).value) == Update(z, time, s)
  {
    var t := Update(z, time, s).value;
    if GetImage(z, time).value.image.Some? {
      assert t.cursor == At(Some(Lookup(z, time).value));
    }
  }
}
