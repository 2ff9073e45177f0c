# illumination frames and image sequences, in Dafny

This project models the core of `illumination`, a Python package that turns
sequences of telescope images into multi-panel animations. Two parts are
modelled.

**Image sequences.** `Image_Sequence` exists in two copies in the repository.
It gathers a sequence of 2D images into a 3D cube, then reduces the cube per
pixel to a median, a sum or a mean. The median, and in one copy the mean, is
cached in a dictionary shared by every sequence of the same class; each
copy has its own.

**Frames.** A frame displays a sequence in an illustration. It covers:

- `FrameBase`: the time zero-point `offset`, the canonical timeline
  `_timesandcadence`, the orientation of the illustration, and the identity
  transforms.
- `imshowFrame`: limits and title, the direction arrows, how a time resolves
  to an image, and what `plot` and `update` leave behind.
- `CameraFrame` and its four numbered cameras: how they transpose and flip
  images and points.
- `ZoomFrame`: a cutout of another frame.

The model is purely functional. Mutable attributes become explicit state that
goes into and comes out of each operation:

- the shared `spatial` cache;
- the `_offset` and `_precaculatedtimesandcadence` memos;
- the `plotted` dictionary and `currenttimestep`.

Python exceptions are the `Err` values of a `Result`, named after the
exception class. Values the frame reads but the model does not define enter as
given values:

- from the underlying sequence: its items, its `time` attribute, its
  `titlefordisplay`, and its `_find_timestep` lookup, which is an
  uninterpreted function;
- from the illustration: its `orientation`, its times and its
  `sharecolorbar` flag.

Modules, one file each:

| module | file | models |
|---|---|---|
| `Results` | results.dfy | exceptions as values, `Option` |
| `Images` | images.dfy | 2D arrays with a shape, zeros, addition, division, broadcasting |
| `Sorting` | sorting.dfy | `np.sort`, `np.unique`, `np.diff`, `np.min`, masks |
| `Columns` | columns.dfy | sum and median of one pixel's values across frames |
| `ImageSequence` | image_sequence.dfy | both `Image_Sequence` copies |
| `Timeline` | timeline.dfy | `FrameBase._timesandcadence` |
| `FrameBase` | frame_base.dfy | data, time axis, offset, orientation |
| `CameraFrame` | camera_frame.dfy | camera geometry and limits |
| `ImshowFrame` | imshow_frame.dfy | `imshowFrame` construction, arrows, `_get_image`, `plot`, `update` |
| `ZoomFrame` | zoom_frame.dfy | `ZoomFrame` construction, `_get_image`, `plot`, `update` |

## Behaviour as written

Where the code and its documented intent differ, the model follows the code.

- **Median substitution.** `imshowFrame.plot` shows the sequence's median
  instead of the resolved image when the image has fewer than 10000 pixels
  OR the sequence has fewer than 50 frames. It shows the image itself only
  when both thresholds are reached, or when the data has no `median`.
- **Colorbar.** `plot` never draws a colorbar. Its guard looks for the key
  `'imshow'` in `plotted`, and nothing ever stores that key. The colour
  scale is still read whenever an image is shown. That read opens with
  `self.illustration.sharecolorbar`, so a frame built without an
  illustration raises `AttributeError` in `plot`. It does so before any
  median is computed.
- **Unassigned `plotingredients`.** `imshowFrame` and `ZoomFrame` pass
  their `plotingredients` argument on to `FrameBase.__init__`, whose
  `**kwargs` drops it, and no class defines the attribute. A frame as built
  therefore raises `AttributeError` in `plot` as soon as `_get_image`
  succeeds. Only a caller that assigns `plotingredients` before plotting
  gets further; the model writes that assignment as
  `f.(ingredients := Some(...))`.
- **Non-horizontal numbered cameras.** Outside a `"horizontal"`
  illustration, `_transformimage` returns `None`. `_transformxy` raises
  `UnboundLocalError`, so `draw_arrows` fails. `_get_image` then resolves
  the time but no image.
- **Mean caching.** The `mean` of the `illumination` copy is cached under
  `'mean'`; that of the `playground` copy is not. With real-valued pixels,
  the two agree whenever no mean is cached yet.
- **Negative `round`.** `_timesandcadence` accepts a negative explicit
  `round`. Because `np.round` is odd-symmetric, it snaps to the grid of the
  absolute value. The result is stored under the negative key.
- **Shared cache.** `spatial` is a class attribute. A median stored by one
  sequence is returned for every other sequence of the same class. The two
  copies are separate classes, each with its own `spatial`.
- **Zoom `_get_times`.** `ZoomFrame._get_times` is never called: everything
  else calls `_gettimes`. A zoom's times, and its offset when the
  illustration has no times, therefore come from its own data, not from its
  source frame.
- **`update` cursors.** `imshowFrame.update` never moves `currenttimestep`,
  so repeated updates to a new timestep redraw every time. `ZoomFrame.update`
  moves it, so a repeated update changes nothing.
- **Cursor after `plot`.** `plot` records the lookup of the requested time
  itself, which may be `None`. It does not use the first time that
  `_get_image` falls back to.
- **Memo keys.** `_timesandcadence(None)` stores its result under the
  inferred unit and never under `None`. A later call with `None` therefore
  recomputes; a call with that unit hits the memo, even if the times have
  changed since.

## Model

| member | source | states |
|---|---|---|
| ImageSequence.Shape | illumination/sequences/Image_Sequence.py:12-21 | the shape is `(N, rows, cols)` of the first frame; no frames raises `IndexError` |
| ImageSequence.GatherCube | illumination/sequences/Image_Sequence.py:23-43 | gathering succeeds exactly when there is a frame and every frame broadcasts into frame 0's shape; the cube has `N` slices of that shape; no frames is `IndexError`, a misfit is `ValueError` |
| ImageSequence.Gather | illumination/sequences/Image_Sequence.py:38-43 | the slice-by-slice fill of a zero cube ends with exactly the cube, or the error, of the whole-cube definition |
| ImageSequence.GatherKeepsFrames | illumination/sequences/Image_Sequence.py:38-43 | for frames of one shape, slice `i` of the cube is `self[i]` and the cube's shape is the one `shape` reports |
| ImageSequence.ColumnOfGather | illumination/sequences/Image_Sequence.py:38-43 | one pixel's values across the cube are that pixel of each frame after broadcasting |
| ImageSequence.Median | illumination/sequences/Image_Sequence.py:55-61 | a cached median is returned for any frames; otherwise the result exists exactly when gathering succeeds and is stored under `'median'`; a failure leaves the cache as it was |
| ImageSequence.MedianSplitsEveryPixel | illumination/sequences/Image_Sequence.py:59-60 | at every pixel of a fresh median, at least half of the frames' values are at most it and at least half are at least it |
| ImageSequence.MedianCacheIsShared | playground/tv/sequences/Image_Sequence.py:8 | after one sequence stores a median, any other sequence gets that same median back |
| ImageSequence.MedianCacheServesStaleImage | playground/tv/sequences/Image_Sequence.py:53-59 | a one-pixel sequence of 2.0 is told its median is 1.0 after a sequence of 1.0 stored its median, though its own median is 2.0 |
| ImageSequence.IdenticalFramesMedian | illumination/sequences/Image_Sequence.py:55-61 | the median of `N` copies of an image is that image |
| ImageSequence.Sum | illumination/sequences/Image_Sequence.py:73-74 | the sum exists exactly when gathering succeeds and otherwise fails with the gather's error |
| ImageSequence.SumAddsFrames | illumination/sequences/Image_Sequence.py:63-74 | each pixel of `sum()` is the sum of that pixel of every frame, broadcast to frame 0's shape |
| ImageSequence.MeanIsSumOverN | playground/tv/sequences/Image_Sequence.py:61-85 | the cube mean is `sum() / N`, and fails exactly when `sum()` does |
| ImageSequence.IdenticalFramesSum | illumination/sequences/Image_Sequence.py:73-74 | the sum of `N` copies of an image is `N` times each pixel, and dividing it by `N` gives the image back |
| ImageSequence.Accumulate | illumination/sequences/Image_Sequence.py:95-98 | the running total keeps the shape of `zeros_like(self[0])` |
| ImageSequence.AccumulateSums | illumination/sequences/Image_Sequence.py:95-98 | the running total fails, with `ValueError`, exactly when some frame does not broadcast into it; otherwise each pixel is the start value plus that pixel's sum over the frames |
| ImageSequence.RunningMean | illumination/sequences/Image_Sequence.py:89-102 | a cached mean is returned as is; a fresh mean is stored under `'mean'`; a failure leaves the cache as it was |
| ImageSequence.CubeMean | playground/tv/sequences/Image_Sequence.py:84-85 | the cube mean exists exactly when gathering succeeds and otherwise fails with the gather's error |
| ImageSequence.RunningMeanIsCubeMean | illumination/sequences/Image_Sequence.py:89-102 | with real-valued pixels and no mean cached, the running mean of the `illumination` copy equals the cube mean of the `playground` copy, failures included |
| ImageSequence.IdenticalFramesMean | playground/tv/sequences/Image_Sequence.py:84-85 | both means of `N` copies of an image are that image |
| Columns.MedianSplits | illumination/sequences/Image_Sequence.py:60 | the median of a pixel column has at least half the values at or below it and at least half at or above it |
| Columns.MedianOfConstant | illumination/sequences/Image_Sequence.py:60 | the median of equal values is that value |
| Columns.SumOfConstant | illumination/sequences/Image_Sequence.py:74 | the sum of `n` equal values is `n` times the value |
| Images.BroadcastToOwnShape | illumination/sequences/Image_Sequence.py:42 | assigning a frame into a slice of its own shape copies it unchanged |
| Sorting.Sort | playground/tv/frames/FrameBase.py:181 | the result is sorted and a permutation of the input |
| Sorting.Unique | playground/tv/frames/FrameBase.py:186 | the result is strictly increasing and holds exactly the input's values |
| Sorting.Diffs | playground/tv/frames/FrameBase.py:181 | one fewer entry than the input, each the difference of neighbours |
| Sorting.Positives | playground/tv/frames/FrameBase.py:182 | holds exactly the strictly positive entries |
| Sorting.Least | playground/tv/frames/FrameBase.py:187 | the least entry, which is one of them; empty input raises `ValueError` |
| Sorting.Min | playground/tv/frames/FrameBase.py:184 | the baseline is one of the times and at most each of them |
| Timeline.RoundHalfEven | playground/tv/frames/FrameBase.py:185 | `np.round` gives an integer within one half of the value, the even one on a tie |
| Timeline.SnapNearest | playground/tv/frames/FrameBase.py:185 | a rounded time is within half a unit of the time; a time at or after the baseline lands on a grid point at or after it |
| Timeline.InferRound | playground/tv/frames/FrameBase.py:180-182 | an inferred unit is strictly positive; otherwise `ValueError` |
| Timeline.InferRoundIsLeastGap | playground/tv/frames/FrameBase.py:180-182 | a unit is inferred exactly when two times differ; it is at most the distance of any two different times, and it is the distance of some pair |
| Timeline.SnappedOnGrid | playground/tv/frames/FrameBase.py:184-185 | the earliest time rounds to itself; every rounded time is a grid point at or after it |
| Timeline.DistilFails | playground/tv/frames/FrameBase.py:186-187 | `np.min(np.diff(np.unique(...)))` raises exactly when no two rounded times differ |
| Timeline.DistilTimeline | playground/tv/frames/FrameBase.py:186-187 | the unique times are increasing and hold exactly the rounded values; the cadence is the least gap between neighbours, and one of them |
| Timeline.DistilGrid | playground/tv/frames/FrameBase.py:186-187 | distinct grid times that include their least member give a timeline starting there, on the grid, with a cadence of at least one unit |
| Timeline.CanonicalTimeline | playground/tv/frames/FrameBase.py:178-188 | the timeline is strictly increasing, holds 2 to `N` times, holds exactly the rounded times, and its cadence is its least neighbour gap |
| Timeline.CanonicalOnGrid | playground/tv/frames/FrameBase.py:184-187 | the timeline starts at the earliest time, every time lies on the grid through it, and the cadence is at least one unit |
| Timeline.CanonicalFails | playground/tv/frames/FrameBase.py:178-187 | the timeline fails exactly when there are no times or all times round to one grid point |
| Timeline.TimesAndCadence | playground/tv/frames/FrameBase.py:171-191 | a memo hit returns the stored pair unchanged; a miss with an explicit `round` gives the canonical timeline for `abs(round)` and stores a success under that same `round` key; a miss never stores under `None`; a failure stores nothing |
| Timeline.RoundHalfEvenOdd | playground/tv/frames/FrameBase.py:185 | `np.round(-x) == -np.round(x)` for half-to-even rounding |
| Timeline.RoundToMirror | playground/tv/frames/FrameBase.py:185 | the rounding as written, `round * np.round((t - baseline) / round) + baseline`, lands on the grid point of step `abs(round)` nearest to `t` |
| Timeline.CanonicalIsRoundedTo | playground/tv/frames/FrameBase.py:184-187 | for any non-zero `round`, the canonical timeline is the distillation of the times rounded exactly as written |
| Timeline.NegativeRoundMirrors | playground/tv/frames/FrameBase.py:175-189 | a negative `round` gives the same timeline as its absolute value, but is stored under the negative key, where a positive request does not find it |
| Timeline.NoneRequestRecomputes | playground/tv/frames/FrameBase.py:175-182 | a `round=None` request never hits the memo; it gives the canonical timeline for the inferred unit when two times differ, and `ValueError` when they do not |
| Timeline.InferredUnitHitsLater | playground/tv/frames/FrameBase.py:180-189 | a successful `None` request is stored under the inferred unit, and a later request with that unit returns it, even for other times |
| Timeline.ExplicitRoundMemoized | playground/tv/frames/FrameBase.py:175-189 | a repeated request with the same explicit unit returns the first result, whatever the times are by then |
| FrameBase.Item | playground/tv/frames/CameraFrame.py:15-16 | `self[i]` exists exactly for `i < N`, else `IndexError` |
| FrameBase.Orientation | playground/tv/frames/FrameBase.py:209-216 | the illustration's orientation when it has one, else `"vertical"` |
| FrameBase.GetTimes | playground/tv/frames/FrameBase.py:144-154 | the data's time axis, or an empty one when the data has none |
| FrameBase.TimesAndCadence | playground/tv/frames/FrameBase.py:156-191 | a memo hit returns the stored pair; a miss with an explicit `round` gives the canonical timeline of the data's own time axis for `abs(round)` |
| FrameBase.Offset | playground/tv/frames/FrameBase.py:61-86 | the offset is the stored one, else the earliest illustration time, else the earliest own time, else 0.0; the value found is stored |
| FrameBase.OffsetWriteOnce | playground/tv/frames/FrameBase.py:72-86 | once stored, the offset never changes, whatever the times later are |
| FrameBase.NoTimeAxisFails | playground/tv/frames/FrameBase.py:144-184 | data without a time axis has no times, so a memo miss raises `ValueError` and stores nothing |
| CameraFrame.GeometryOf | playground/tv/frames/CameraFrame.py:46-74 | cameras 1 and 2 share the transposing geometry; cameras 3 and 4 share the transposing and reversing one |
| CameraFrame.Cameras | playground/tv/frames/CameraFrame.py:77-78 | the table maps exactly `cam1`..`cam4` to the four cameras |
| CameraFrame.CameraLimits | playground/tv/frames/CameraFrame.py:8-19 | `xmin = ymin = 0`; `(ymax, xmax)` is the first image's shape, or `(4156, 4272)` when there is none |
| CameraFrame.TransformImage | playground/tv/frames/CameraFrame.py:26-60 | an image comes back exactly in a horizontal illustration, with rows and columns exchanged: pixel `[i][j]` is raw `[j][i]` for cameras 1-2 and raw `[rows-1-j][cols-1-i]` for cameras 3-4 |
| CameraFrame.TransformXY | playground/tv/frames/CameraFrame.py:35-70 | not horizontal raises `UnboundLocalError`; otherwise `(y, x)` for cameras 1-2 and `(ymax - y, xmax - x)` for cameras 3-4, where an unset limit raises `TypeError` |
| CameraFrame.NumberedPairsAgree | playground/tv/frames/CameraFrame.py:46-74 | cameras 2 and 4 transform images and points exactly as cameras 1 and 3 |
| CameraFrame.TransformImageInvolution | playground/tv/frames/CameraFrame.py:26-60 | transforming a transformed image gives back the raw image |
| CameraFrame.TransformXYInvolution | playground/tv/frames/CameraFrame.py:35-70 | transforming a transformed point, with the limits exchanged, gives back the point |
| CameraFrame.PixelBoxAgrees | playground/tv/frames/CameraFrame.py:22-70 | with limits from the raw shape, the point transform maps each raw pixel's box onto the box of the display pixel that shows its value |
| ImshowFrame.ImshowLimits | playground/tv/frames/imshowFrame.py:72-77 | `xmin = ymin = 0` always; `(ymax, xmax)` is the first image's shape, else unset |
| ImshowFrame.Title | playground/tv/frames/imshowFrame.py:79-85 | the title given, else the data's title, else empty |
| ImshowFrame.NewFrame | playground/tv/frames/imshowFrame.py:62-85 | a frame keeps its data and illustration, but drops its `plotingredients` argument and so has none; camera frames take the camera limits |
| ImshowFrame.TransformImage | playground/tv/frames/FrameBase.py:193-199 | the identity except for numbered cameras, which use their geometry |
| ImshowFrame.TransformXY | playground/tv/frames/FrameBase.py:202-207 | the identity except for numbered cameras, which use their geometry and the frame's limits |
| ImshowFrame.TransformXYUniform | playground/tv/frames/CameraFrame.py:35-70 | whether a point transform fails, and how, does not depend on the point |
| ImshowFrame.ArrowLength | playground/tv/frames/imshowFrame.py:161-167 | an unset limit gives length 50 |
| ImshowFrame.CameraArrowLength | playground/tv/frames/imshowFrame.py:161-167 | a camera frame's arrows are `ratio` times the first image's longer side, or `ratio * 4272` without an image |
| ImshowFrame.DrawArrows | playground/tv/frames/imshowFrame.py:148-197 | arrows are drawn exactly when the origin transforms, and fail with its error otherwise |
| ImshowFrame.ArrowVectors | playground/tv/frames/imshowFrame.py:173-195 | the arrows start at the transformed origin and run one length right and up untransformed, up and right for cameras 1-2, down and left for cameras 3-4 |
| ImshowFrame.NumberedArrowsNeedHorizontal | playground/tv/frames/imshowFrame.py:174 | a numbered camera outside a horizontal illustration fails `draw_arrows` with `UnboundLocalError` |
| ImshowFrame.Requested | playground/tv/frames/imshowFrame.py:296-297 | the time given, else the first time, else none |
| ImshowFrame.GetImage | playground/tv/frames/imshowFrame.py:290-307 | `_get_image` raises exactly when the lookup raises something other than `IndexError`, `AssertionError` or `ValueError`, and with that error; an image always comes with a time |
| ImshowFrame.GetImageResolves | playground/tv/frames/imshowFrame.py:290-307 | a time resolves exactly when the lookup, the item and the time at that step all exist; it is `times[ts]`, and the image is the transformed `data[ts]` |
| ImshowFrame.NoneIsFirstTime | playground/tv/frames/imshowFrame.py:296-298 | with no time given, the result is that of the first time |
| ImshowFrame.NumberedImageNeedsHorizontal | playground/tv/frames/imshowFrame.py:299-302 | a numbered camera outside a horizontal illustration resolves no image |
| ImshowFrame.FirstImage | playground/tv/frames/imshowFrame.py:226-230 | a failing median leaves the cache unchanged |
| ImshowFrame.ColorScale | playground/tv/frames/imshowFrame.py:90-102 | reading the colour scale raises `AttributeError` exactly when the frame has no illustration or the illustration has no `sharecolorbar`; otherwise it yields that flag |
| ImshowFrame.PlotWith | playground/tv/frames/imshowFrame.py:214-220 | an exception from `_get_image` propagates out of `plot`; after it, an unassigned `plotingredients` raises `AttributeError`; when an image is to be shown and the colour scale cannot be read, `plot` raises `AttributeError`; in both cases the cache is unchanged |
| ImshowFrame.Plot | playground/tv/frames/imshowFrame.py:199-273 | `_get_image`'s exception propagates; once it succeeds, a frame without `plotingredients` raises `AttributeError`; a frame with no illustration that is to show an image raises `AttributeError` before any median is computed; a success leaves the cursor at the looked-up timestep of the requested time, or `None` |
| ImshowFrame.Stamped | playground/tv/frames/FrameBase.py:88-105 | the time label is the offset plus the time elapsed since it, which add back up to the time; the offset read is stored, and a stored offset is the one used |
| ImshowFrame.FreshFramePlotFails | playground/tv/frames/imshowFrame.py:63-67 | a frame as its constructor leaves it raises `AttributeError` in `plot` as soon as its image resolves, with the cache untouched |
| ImshowFrame.PlotState | playground/tv/frames/imshowFrame.py:204-273 | after `plot`: the frame had `plotingredients` assigned; no colorbar; the colour scale was readable whenever an image was to be shown; the image is shown exactly when it is an ingredient and was resolved, with extent `[0, cols, 0, rows]`; there is a time label exactly when `'time'` is an ingredient, blank without a time; arrows exactly when `'arrows'` is an ingredient; the cursor is the lookup's step, or `None` |
| ImshowFrame.PlotSubstitutesMedian | playground/tv/frames/imshowFrame.py:217-232 | only a frame whose colour scale is readable gets this far; the shown image is the median when `size < 10000` or `N < 50` and the data has a median; it comes from the cache when the cache has one; otherwise it is the resolved image |
| ImshowFrame.Update | playground/tv/frames/imshowFrame.py:323-336 | `update` never moves the cursor |
| ImshowFrame.UpdateRedraws | playground/tv/frames/imshowFrame.py:323-336 | no image, or the cursor's timestep, changes nothing; otherwise one redraw of the resolved image, keeping the extent and arrows, with the time label restamped |
| ImshowFrame.UpdateTwiceRedrawsTwice | playground/tv/frames/imshowFrame.py:323-336 | a second update to the same new timestep redraws again |
| ZoomFrame.AspectRatio | playground/tv/frames/ZoomFrame.py:59-60 | the ratio times the width is the height; a zero width raises `ZeroDivisionError` |
| ZoomFrame.ZoomTitle | playground/tv/frames/ZoomFrame.py:62 | the title is the frame type `Zoom`, a vertical bar between spaces, then the position text |
| ZoomFrame.NewZoom | playground/tv/frames/ZoomFrame.py:53-64 | a zoom is built exactly when the width is nonzero; its title is always the zoom title, and its own part is an `imshowFrame` of its own data without `plotingredients` |
| ZoomFrame.LookupDelegates | playground/tv/frames/ZoomFrame.py:71-75 | a zoom's timestep is the source frame's data lookup, whatever the zoom's own data |
| ZoomFrame.GetImage | playground/tv/frames/ZoomFrame.py:77-87 | the source's exceptions propagate; a zoom resolves only when its source does |
| ZoomFrame.GetImageCutsSource | playground/tv/frames/ZoomFrame.py:77-87 | a zoom resolves the source's time, and an image exactly when the cutout succeeds; a cutout error propagates |
| ZoomFrame.Plot | playground/tv/frames/ZoomFrame.py:89-95 | the zoom's `_get_image` exception propagates; once it succeeds, a zoom without `plotingredients` raises `AttributeError`; a zoom with no illustration that is to show an image raises `AttributeError`; a success leaves the cursor at the source's looked-up timestep, or `None` |
| ZoomFrame.FreshZoomPlotFails | playground/tv/frames/ZoomFrame.py:53 | a zoom as its constructor leaves it raises `AttributeError` in `plot` as soon as its image resolves, with the cache untouched |
| ZoomFrame.Update | playground/tv/frames/ZoomFrame.py:97-111 | a successful update always leaves the cursor at the new timestep once an image resolves; without an image nothing changes |
| ZoomFrame.UpdateRedraws | playground/tv/frames/ZoomFrame.py:97-111 | it redraws only at a timestep other than the cursor's; it shows the cutout itself; an absent time label stays absent |
| ZoomFrame.UpdateIdempotent | playground/tv/frames/ZoomFrame.py:107-111 | a second update to the same time changes nothing |

## Left out

- Drawing with matplotlib is not modelled. `imshow`, `set_data`, `set_text`, `arrow`, `text`, `title`, `axis`, `set_xlim` and `set_ylim` become fields of the recorded state, and a redraw is counted.
- `_ensure_colorbar_exists` is never reached, because the colorbar guard never holds. Of `_cmap_norm_ticks`, only the read of `self.illustration.sharecolorbar` is modelled, including its `AttributeError` (`ImshowFrame.ColorScale`). The colour map, normalisation and ticks it returns are not modelled. Neither are the exceptions `cmap_norm_ticks` or the illustration's own `_cmap_norm_ticks` may raise.
- `Cutout2D` and `plot_on_original` come from astropy. The cutout is an uninterpreted function, and the box drawn on the source frame is left out.
- The `Sequence` base class, `make_sequence` and the lookup rule behind `_find_timestep` (the nearest time) are not part of this model. The lookup is an uninterpreted function of the requested time.
- Time conversions are not modelled: `astropy.time.Time`, JD and GPS scales, and units. All times are reals on one scale, and the cadence carries no unit.
- `_timestring` is reduced to the offset and the elapsed time. The text format is left out.
- `_get_alternate_time`, `__repr__`, `speak` and the progress messages are left out, as are the illustrations, their layout, the scripts and the tests.
- Floating point is not modelled. Pixel values and times are mathematical reals, so rounding errors of numpy sums, means and divisions are absent.
- Timeline.TimesAndCadence, FrameBase.TimesAndCadence and FrameBase.NoTimeAxisFails: require an explicit `round` to be non-zero. A zero `round` makes numpy divide by zero and produce NaN times, which reals cannot represent. A negative `round` is modelled: see `Timeline.NegativeRoundMirrors`.
- Pixel dtype is not modelled. The running total of the `illumination` `mean` starts from `zeros_like(self[0])` and keeps frame 0's dtype. Integer frames could therefore wrap, and a later float frame makes `total += self[i]` raise a casting `TypeError`. The cube of `_gather_3d` is always float64. Pixels here are reals, so `ImageSequence.RunningMeanIsCubeMean` holds for real-valued pixels only.
- The frame's own state after an exception is not modelled. A failed `plot` or `update` returns only the error, plus the shared cache as the failure left it.
- `OtherData` stands for sequences that are not `Image_Sequence`. They are taken to have no `median`, so `plot` falls back to the resolved image.
- A zoom whose source is itself a zoom is not modelled. The source of a zoom is an `imshowFrame`.
- ImshowFrame.ArrowLength: states only the fallback length; the `ratio` times the longer span is stated for camera frames by `ImshowFrame.CameraArrowLength`.
- ImshowFrame.FirstImage: states only that a failure keeps the cache; which image is chosen is stated through `plot` by `ImshowFrame.PlotSubstitutesMedian`.
- ImshowFrame.PlotWith: states only the propagated `_get_image` error and the two `AttributeError`s (`plotingredients`, colour scale); the successful state is stated by `ImshowFrame.PlotState`.
- ImageSequence.Accumulate: states only the shape; the pixel values are stated by `ImageSequence.AccumulateSums`.
