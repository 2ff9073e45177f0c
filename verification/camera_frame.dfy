/**
  `CameraFrame` and its four numbered subclasses: the geometry that turns a
  raw camera image and raw `(x, y)` points into the display coordinates of a
  horizontal illustration.

  `Camera1Frame` transposes; `Camera3Frame` transposes and reverses both
  axes; `Camera2Frame` and `Camera4Frame` inherit from them unchanged. Only
  the `"horizontal"` orientation is handled: for any other, the image
  transform falls off its `if` and returns `None`, and the point transform
  reads locals that were never bound.
 */
module CameraFrame {
  import opened Results
  import opened Images
  import opened FrameBase

  datatype Camera = Cam1 | Cam2 | Cam3 | Cam4

  /** The two geometries: that of `Camera1Frame` and that of `Camera3Frame`. */
  datatype Geometry = Swapped | Reversed

  /** The class each numbered camera inherits its transforms from. */
  function GeometryOf(c: Camera): (g: Geometry)
    ensures g == Swapped <==> c == Cam1 || c == Cam2
    ensures g == Reversed <==> c == Cam3 || c == Cam4
  {
    match c
    case Cam1 => Swapped
    case Cam2 => Swapped
    case Cam3 => Reversed
    case Cam4 => Reversed
  }

  /** The `cameras` table, from panel name to camera. */
  function Cameras(): (m: map<string, Camera>)
    ensures m.Keys == {"cam1", "cam2", "cam3", "cam4"}
    ensures m["cam1"] == Cam1 && m["cam2"] == Cam2 && m["cam3"] == Cam3 && m["cam4"] == Cam4
  {
    map["cam1" := Cam1, "cam2" := Cam2, "cam3" := Cam3, "cam4" := Cam4]
  }

  /** `image.T[:, :]`. */
  function Transpose(im: Image): (t: Image)
    ensures t.rows == im.cols && t.cols == im.rows
  {
    Grid(im.cols, im.rows,
      seq(im.cols, i requires 0 <= i < im.cols =>
        seq(im.rows, j requires 0 <= j < im.rows => im.px[j][i])))
  }

  /** `image.T[::-1, ::-1]`. */
  function TransposeReversed(im: Image): (t: Image)
    ensures t.rows == im.cols && t.cols == im.rows
  {
    Grid(im.cols, im.rows,
      seq(im.cols, i requires 0 <= i < im.cols =>
        seq(im.rows, j requires 0 <= j < im.rows => im.px[im.rows - 1 - j][im.cols - 1 - i])))
  }

  /**
    `_transformimage` of a numbered camera: in a horizontal illustration the
    image of shape `(rows, cols)` becomes one of shape `(cols, rows)` —
    pixel `[i][j]` taken from `[j][i]` (cameras 1 and 2) or from
    `[rows-1-j][cols-1-i]` (cameras 3 and 4); otherwise `None`.
   */
  function TransformImage(c: Camera, orientation: string, im: Image): (r: Option<Image>)
    ensures r.Some? <==> orientation == "horizontal"
    ensures r.Some? ==> r.value.rows == im.cols && r.value.cols == im.rows
    ensures r.Some? && GeometryOf(c) == Swapped ==>
      forall i, j | 0 <= i < im.cols && 0 <= j < im.rows :: r.value.px[i][j] == im.px[j][i]
    ensures r.Some? && GeometryOf(c) == Reversed ==>
      forall i, j | 0 <= i < im.cols && 0 <= j < im.rows ::
        r.value.px[i][j] == im.px[im.rows - 1 - j][im.cols - 1 - i]
  {
    if orientation != "horizontal" then None
    else match GeometryOf(c)
      case Swapped => Some(Transpose(im))
      case Reversed => Some(TransposeReversed(im))
  }

  /**
    `_transformxy` of a numbered camera: in a horizontal illustration `(x, y)`
    becomes `(y, x)` (cameras 1 and 2) or `(ymax - y, xmax - x)` (cameras 3
    and 4, where an unset limit raises `TypeError`); otherwise the unbound
    `displayx` raises `UnboundLocalError`.
   */
  function TransformXY(c: Camera, orientation: string, xmax: Option<int>, ymax: Option<int>, p: Point): (r: Result<Point>)
    ensures orientation != "horizontal" <==> r == Err(UnboundLocalError)
    ensures orientation == "horizontal" && GeometryOf(c) == Swapped ==> r == Ok(Point(p.y, p.x))
    ensures orientation == "horizontal" && GeometryOf(c) == Reversed ==>
      (r.Ok? <==> xmax.Some? && ymax.Some?) &&
      (r.Ok? ==> r.value == Point(ymax.value as real - p.y, xmax.value as real - p.x)) &&
      (r.Err? ==> r.error == TypeError)
  {
    if orientation != "horizontal" then Err(UnboundLocalError)
    else match GeometryOf(c)
      case Swapped => Ok(Point(p.y, p.x))
      case Reversed =>
        if xmax.None? || ymax.None? then Err(TypeError)
        else Ok(Point(ymax.value as real - p.y, xmax.value as real - p.x))
  }

  /**
    `CameraFrame.__init__` limits: `xmin = ymin = 0`, and `(ymax, xmax)` the
    shape of `data[0]`, or `4156` and `4272` when there is no first image
    (`IndexError`, or `AttributeError` on a `None` item).
   */
  function CameraLimits(d: Data): (l: Limits)
    ensures l.xmin == Some(0) && l.ymin == Some(0)
    ensures N(d) > 0 && Items(d)[0].Some? ==>
      l.xmax == Some(Items(d)[0].value.cols) && l.ymax == Some(Items(d)[0].value.rows)
    ensures !(N(d) > 0 && Items(d)[0].Some?) ==> l.xmax == Some(4272) && l.ymax == Some(4156)
  {
    match Item(d, 0)
    case Ok(Some(im)) => Limits(Some(0), Some(im.cols), Some(0), Some(im.rows))
    case _ => Limits(Some(0), Some(4272), Some(0), Some(4156))
  }

  /** Cameras 2 and 4 transform exactly as cameras 1 and 3. */
  lemma NumberedPairsAgree(o: string, im: Image, xmax: Option<int>, ymax: Option<int>, p: Point)
    ensures TransformImage(Cam2, o, im) == TransformImage(Cam1, o, im)
    ensures TransformImage(Cam4, o, im) == TransformImage(Cam3, o, im)
    ensures TransformXY(Cam2, o, xmax, ymax, p) == TransformXY(Cam1, o, xmax, ymax, p)
    ensures TransformXY(Cam4, o, xmax, ymax, p) == TransformXY(Cam3, o, xmax, ymax, p)
  {
  }

  /** Transforming a transformed image once more gives back the raw image. */
  lemma TransformImageInvolution(c: Camera, im: Image)
    ensures TransformImage(c, "horizontal", im).Some?
    ensures TransformImage(c, "horizontal", TransformImage(c, "horizontal", im).value) == Some(im)
  {
    var t := TransformImage(c, "horizontal", im).value;
    var back := TransformImage(c, "horizontal", t).value;
    forall r, k | 0 <= r < im.rows && 0 <= k < im.cols
      ensures back.px[r][k] == im.px[r][k]
    {
      if GeometryOf(c) == Reversed {
        assert back.px[r][k] == t.px[t.rows - 1 - k][t.cols - 1 - r];
      }
    }
    SamePixels(back, im);
  }

  /**
    The point transform is its own inverse once the roles of `xmax` and
    `ymax` are exchanged, as they are for the transformed image.
   */
  lemma TransformXYInvolution(c: Camera, xmax: int, ymax: int, p: Point)
    ensures TransformXY(c, "horizontal", Some(xmax), Some(ymax), p).Ok?
    ensures var q := TransformXY(c, "horizontal", Some(xmax), Some(ymax), p).value;
      TransformXY(c, "horizontal", Some(ymax), Some(xmax), q) == Ok(p)
  {
  }

  /**
    The display pixel `(row, col)` that shows raw pixel `(r, k)`: the point
    transform of the pixel's corner `(k, r)`, moved to the lower-left corner
    of the transformed pixel box.
   */
  function DisplayPixel(c: Camera, rows: nat, cols: nat, r: nat, k: nat): (rc: (int, int))
  {
    match GeometryOf(c)
    case Swapped => (k, r)
    case Reversed => (cols - 1 - k, rows - 1 - r)
  }

  /**
    Points and images agree: with `(ymax, xmax)` the raw image's shape, the
    point transform carries the box `[k, k+1] x [r, r+1]` of raw pixel
    `(r, k)` onto the box of the display pixel that the image transform
    fills with that raw pixel's value.
   */
  lemma PixelBoxAgrees(c: Camera, im: Image, r: nat, k: nat)
    requires r < im.rows && k < im.cols
    ensures var t := TransformImage(c, "horizontal", im).value;
      var (i, j) := DisplayPixel(c, im.rows, im.cols, r, k);
      var a := TransformXY(c, "horizontal", Some(im.cols), Some(im.rows), Point(k as real, r as real)).value;
      var b := TransformXY(c, "horizontal", Some(im.cols), Some(im.rows), Point(k as real + 1.0, r as real + 1.0)).value;
      && 0 <= i < t.rows && 0 <= j < t.cols
      && t.px[i][j] == im.px[r][k]
      && {a.x, b.x} == {j as real, j as real + 1.0}
      && {a.y, b.y} == {i as real, i as real + 1.0}
  {
    var t := TransformImage(c, "horizontal", im).value;
    var (i, j) := DisplayPixel(c, im.rows, im.cols, r, k);
    if GeometryOf(c) == Reversed {
      assert im.rows - 1 - j == r && im.cols - 1 - i == k;
    }
  }
}
