/**
  Two-dimensional images: a grid of real pixel values with an explicit shape
  `(rows, cols)`, as `numpy` holds it. Pixel values are mathematical reals; the
  floating-point behaviour of `numpy` is not modelled.
 */
module Images {

  /** A grid of pixels, `px[r][c]` being row `r` and column `c`. */
  datatype Grid = Grid(rows: nat, cols: nat, px: seq<seq<real>>)

  /** The grid holds exactly `rows` rows of exactly `cols` pixels. */
  predicate Rectangular(g: Grid) {
    |g.px| == g.rows && forall r | 0 <= r < |g.px| :: |g.px[r]| == g.cols
  }

  /** A well-formed image. */
  type Image = g: Grid | Rectangular(g) witness Grid(0, 0, [])

  predicate SameShape(a: Image, b: Image) {
    a.rows == b.rows && a.cols == b.cols
  }

  /** `np.size`: the number of pixels. */
  function Size(im: Image): nat {
    im.rows * im.cols
  }

  /** An image of the given shape whose every pixel is `v`. */
  function Fill(rows: nat, cols: nat, v: real): (im: Image)
    ensures im.rows == rows && im.cols == cols
    ensures forall r, c | 0 <= r < rows && 0 <= c < cols :: im.px[r][c] == v
  {
    Grid(rows, cols, seq(rows, _ => seq(cols, _ => v)))
  }

  /** `np.zeros((rows, cols))`. */
  function Zeros(rows: nat, cols: nat): (im: Image)
    ensures im.rows == rows && im.cols == cols
    ensures forall r, c | 0 <= r < rows && 0 <= c < cols :: im.px[r][c] == 0.0
  {
    Fill(rows, cols, 0.0)
  }

  /** Element-wise `a + b` of two images of one shape. */
  function Add(a: Image, b: Image): (s: Image)
    requires SameShape(a, b)
    ensures SameShape(s, a)
    ensures forall r, c | 0 <= r < a.rows && 0 <= c < a.cols ::
      s.px[r][c] == a.px[r][c] + b.px[r][c]
  {
    Grid(a.rows, a.cols,
      seq(a.rows, r requires 0 <= r < a.rows =>
        seq(a.cols, c requires 0 <= c < a.cols => a.px[r][c] + b.px[r][c])))
  }

  /** Element-wise `a / d`. */
  function Divide(a: Image, d: real): (q: Image)
    requires d != 0.0
    ensures SameShape(q, a)
    ensures forall r, c | 0 <= r < a.rows && 0 <= c < a.cols :: q.px[r][c] == a.px[r][c] / d
  {
    Grid(a.rows, a.cols,
      seq(a.rows, r requires 0 <= r < a.rows =>
        seq(a.cols, c requires 0 <= c < a.cols => a.px[r][c] / d)))
  }

  /**
    `numpy` broadcasting of a 2D source into a 2D target of shape
    `(rows, cols)`: each source dimension must equal the target's or be 1.
   */
  predicate Broadcastable(src: Image, rows: nat, cols: nat) {
    (src.rows == rows || src.rows == 1) && (src.cols == cols || src.cols == 1)
  }

  /** The index of the source row (or column) that broadcasting reads. */
  function Stretch(dim: nat, i: nat): nat {
    if dim == 1 then 0 else i
  }

  /** The source stretched along its length-1 dimensions to `(rows, cols)`. */
  function BroadcastTo(src: Image, rows: nat, cols: nat): (im: Image)
    requires Broadcastable(src, rows, cols)
    ensures im.rows == rows && im.cols == cols
  {
    Grid(rows, cols,
      seq(rows, r requires 0 <= r < rows =>
        seq(cols, c requires 0 <= c < cols => src.px[Stretch(src.rows, r)][Stretch(src.cols, c)])))
  }

  /** Broadcasting an image to its own shape leaves it as it is. */
  lemma BroadcastToOwnShape(src: Image)
    ensures Broadcastable(src, src.rows, src.cols)
    ensures BroadcastTo(src, src.rows, src.cols) == src
  {
    var b := BroadcastTo(src, src.rows, src.cols);
    forall r | 0 <= r < src.rows
      ensures b.px[r] == src.px[r]
    {
    }
  }

  /** Two images of one shape with equal pixels are the same image. */
  lemma SamePixels(a: Image, b: Image)
    requires SameShape(a, b)
    requires forall r, c | 0 <= r < a.rows && 0 <= c < a.cols :: a.px[r][c] == b.px[r][c]
    ensures a == b
  {
    forall r | 0 <= r < a.rows
      ensures a.px[r] == b.px[r]
    {
    }
  }
}
