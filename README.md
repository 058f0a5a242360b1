# termplot, modelled in Dafny

termplot draws plots in the terminal. A `Plot` holds a `View`: a domain (the x
interval), a codomain (the y interval), a canvas size in pixels and a list of
plots. Rendering draws the two axes and then every plot, in the order they were
added, as line segments on a Braille canvas. Each point of the plotting space is
projected onto a pixel. With decoration, every row gets a y tick label on its
left and one more line of x tick labels goes underneath.

The model follows the source file by file:

- `domain.dfy` (module `Domains`) covers `Domain` and its sampler
  `DomainIterator`. The sampler is a class whose `Next` steps its running value
  in place. Its contract is stated against `Samples`, the sequence it yields.
- `canvas.dfy` (module `Canvas`) covers `project_on_canvas`, with `f64::round`
  and `clamp` written out. `ViewCanvas` is a class that records each line or
  point as a pixel-level `Primitive`, in drawing order.
- `plot.dfy` (module `Plots`) covers `Graph`, `Bar`, `Bars` and `Histogram`. Each
  one's `draw` is a method proved to append the pixels of a segment list that a
  function defines. Lemmas state what those segments are.
- `ticks.dfy` (module `Ticks`) covers `XTicks` and `YTicks`. The x tick line is
  written by a loop (`XTicks.Fmt`), proved equal to `XTicks.Line`, which is
  proved to be exactly `width` characters long.
- `view.dfy` (module `Views`) covers `View::draw_axis`, `draw_plots`, `drawing`,
  the `Plot` class with its setters, and the undecorated branch of `Display`.
  A panic in `drawing` becomes a `Panicked` outcome.
- `wrappers.dfy` holds `Option`.

`f64` values are modelled as exact reals, so no NaN, infinity or rounding error
exists in the model. A `Graph`'s function returns `None` where the Rust closure
returns a non-finite value.

Two external inputs become parameters. Turning recorded primitives into rows of
Braille characters is drawille's work, so `View.Drawing` takes a `rasterize`
function from the size and the primitives to rows. The one-decimal `{:.1}`
formatting of tick values becomes a `labelOf: real -> string` parameter.

Three behaviours of the code are easy to misread. The model follows the code
in each:

- A non-finite sample does not break a graph. The code collects the finite
  points first and joins neighbours in that list, so the two finite samples
  around a gap are joined across it (`Plots.GapIsBridged`).
- The x ticks do not clamp when the labels are wider than the row. The code
  subtracts in unsigned arithmetic, which panics where overflow checks are on
  and otherwise wraps around to a fill of nearly 2^64 blanks. The model
  returns `Panicked(TicksTooWide)` for both.
- `Domain::min` and `Domain::max` return the interval's start and end, not the
  smaller and larger bound. So a reversed domain (`Domain(8.0..-8.0)`)
  projects with its "min" at its start.

## Model

| member | source | states |
|---|---|---|
| Domains.Domain.Min | src/lib.rs:382-384 | `min` is the interval's start, even when the domain is reversed (`RangeExamples` shows 8 for `8.0..-8.0`) |
| Domains.Domain.Max | src/lib.rs:395-397 | `max` is the interval's end, even when the domain is reversed (`RangeExamples` shows -8 for `8.0..-8.0`) |
| Domains.Domain.Range | src/lib.rs:411-413 | the range is non-negative, it is the distance from `min` to `max` in whichever direction, and it is zero exactly when the two bounds coincide |
| Domains.RangeExamples | src/lib.rs:382-413 | the documented examples: `Domain(-10.0..10.0)` has range 20 and `Domain(8.0..-8.0)` has range 16, and the reversed domain's `min` is its start 8 and its `max` its end -8 |
| Domains.Domain.Sample | src/lib.rs:433-435 | a reversed or empty domain (start >= end) yields no samples |
| Domains.Domain.Iter | src/lib.rs:433-435 | `iter(steps)` returns a fresh sampler over this domain whose remaining values are exactly `Sample(steps)` |
| Domains.DomainIterator.constructor | src/lib.rs:450-456 | `DomainIterator::new` starts at the domain's start with the given step, so its remaining values are `Samples(start, end, step)` (see the `Domains.DomainIterator` line under Left out) |
| Domains.DomainIterator.Next | src/lib.rs:462-469 | `next` yields the first remaining value and leaves the rest, or yields `None` and leaves nothing once the running value reaches `end` |
| Domains.SamplesAt | src/lib.rs:462-469 | the i-th yielded value is `start + i * step` and below `end`, and one more step would reach `end` |
| Domains.SampleShape | src/lib.rs:433-469 | the samples start at `start`, stay below `end`, and successive samples differ by `range / steps` |
| Domains.SampleExact | src/lib.rs:433-469 | for start < end and exact arithmetic, `iter(steps)` yields exactly `steps` values, value k being `start + k * (end - start) / steps` |
| Canvas.Round | src/lib.rs:498 | `f64::round`: within 1/2 of its argument, and halfway cases round away from zero |
| Canvas.Clamp | src/lib.rs:498 | the result lies in `[lo, hi]`, is the input when the input is in range, and otherwise is the nearer bound |
| Canvas.ClampRoundIsFloorHalf | src/lib.rs:498-503 | rounding then clamping into `[0, n - 1]` equals clamping `floor(r + 1/2)`, since negative results clamp to 0 either way |
| Canvas.Frame.ProjectOnCanvas | src/lib.rs:495-505 | every point, inside the plotting space or not, projects onto a pixel of the canvas grid |
| Canvas.ProjectCorners | src/lib.rs:495-505 | with ordered axes, (min, min) projects onto the bottom-left pixel and (max, max) onto the top-right pixel |
| Canvas.ProjectMonotone | src/lib.rs:495-505 | projection keeps the order of x coordinates and reverses the order of y coordinates, since rows grow downwards |
| Canvas.PixelsAppend | src/lib.rs:514-518 | projecting segment lists commutes with concatenation, so drawing a list is drawing its parts in turn |
| Canvas.ViewCanvas.constructor | src/lib.rs:482-487 | `ViewCanvas::new` keeps the view's frame and starts with nothing drawn |
| Canvas.ViewCanvas.Line | src/lib.rs:514-518 | `line` appends one line between the projections of its two end points and leaves what was drawn before |
| Canvas.ViewCanvas.Point | src/lib.rs:527-530 | `point` appends the pixel that its point projects onto |
| Plots.Graph.Draw | src/plot.rs:50-66 | `Graph::draw` appends the segments joining consecutive finite samples of the domain, one sample per pixel column |
| Plots.CollectFinite | src/plot.rs:51-60 | draining the sampler keeps, in order, the pair `(x, f(x))` for every sample with a finite value, and drops the rest |
| Plots.Retained | src/plot.rs:53-59 | filtering keeps at most as many points as there are samples |
| Plots.RetainedAppend | src/plot.rs:53-60 | filtering the concatenation of two sample lists gives the concatenation of their filtered lists |
| Plots.JoinsAt | src/plot.rs:61-65 | `windows(2)` over k points gives max(0, k - 1) segments, segment j joining points j and j + 1 |
| Plots.GapIsBridged | src/plot.rs:53-65 | a non-finite sample between two finite ones does not break the curve: the two neighbours are joined by one segment |
| Plots.Bar.Segments | src/plot.rs:85-89 | a bar is its left side at `x`, its right side at `x + width`, both from 0 to `height`, then its top; nothing is drawn along the baseline |
| Plots.Bar.Draw | src/plot.rs:85-89 | `Bar::draw` appends the pixels of the bar's three segments in that order |
| Plots.BarLinesAt | src/plot.rs:133-135 | drawing n bars gives 3n segments, segments 3i to 3i + 2 being bar i's |
| Plots.DrawBars | src/plot.rs:133-135 | drawing the bars in stored order appends their segments in that order |
| Plots.Bars.New | src/plot.rs:122-129 | one bar per height, in order, bar i standing at x = i, one unit wide, as high as height i |
| Plots.Bars.Draw | src/plot.rs:133-135 | `Bars::draw` appends every bar's segments in order |
| Plots.CountIn | src/plot.rs:180 | the count of values in a bucket never exceeds the number of values |
| Plots.CountInIsHits | src/plot.rs:180 | a bucket's count is the number of positions whose value lies in its half-open range, so repeated values count each time |
| Plots.Histogram.New | src/plot.rs:174-184 | one bar per bucket range; what each bar is and what the heights sum to are proved in `HistogramBars` and `HistogramTotal` |
| Plots.Histogram.NewWithBucketsCount | src/plot.rs:193-202 | exactly `count` buckets, all of the same width (greatest value - least value) / `count`, bucket `i` starting at `Edge(least value, width, i)`, that is the least value plus `i` widths; `BucketsByCountSpan` and `BucketsOfEqualValues` prove where they end and what equal values give |
| Plots.HistogramBars | src/plot.rs:174-184 | one bar per bucket, in order, starting at the bucket's start, as wide as the bucket, as high as its count |
| Plots.HistogramTotal | src/plot.rs:174-184 | the bar heights sum to the number of (value, bucket) memberships, so overlapping buckets count a value more than once and a value outside every bucket counts nowhere |
| Plots.HistogramExample | src/plot.rs:174-184 | values 1, 1, 3, 3, 5 in buckets 0..2, 2..4, 4..6 give bars of heights 2, 2 and 1 |
| Plots.Histogram.Draw | src/plot.rs:206-210 | `Histogram::draw` appends every bucket's bar segments in order |
| Plots.MaxOf | src/plot.rs:194 | the fold with `f64::max` gives a value of the list that bounds every value from above |
| Plots.MinOf | src/plot.rs:195 | the fold with `f64::min` gives a value of the list that bounds every value from below |
| Plots.EvenBucketsEqual | src/plot.rs:195-199 | every range `min + i * width .. min + (i + 1) * width` is exactly `width` wide and starts `i` widths after `min` |
| Plots.EvenHistogram | src/plot.rs:195-201 | the histogram over those ranges has one bar per range, every bar `width` wide, bar `i` standing at `Edge(min, width, i)` |
| Plots.EvenBucketsContiguous | src/plot.rs:196-200 | `count` buckets are built, the first starting at the least value, each ending where the next starts |
| Plots.BucketsByCountSpan | src/plot.rs:193-202 | with at least one bucket, the buckets run from the least value to the greatest, and the greatest value lies in none of them because the ranges are half-open |
| Plots.BucketsOfEqualValues | src/plot.rs:193-202 | when every value is equal, all `count` buckets have width 0 and height 0 |
| Plots.Drawable.Draw | src/lib.rs:150 | drawing a plot appends the pixels of its segments to the canvas |
| Ticks.Spaces | src/ticks.rs:28 | the padding of `{: >n$}` of an empty string is n blanks |
| Ticks.JoinShape | src/ticks.rs:23-29 | n >= 1 labels joined by a gap are as long as the labels plus n - 1 gaps, and start with the first label |
| Ticks.XTicks.New | src/ticks.rs:11-18 | the x tick labels are the domain's start label, then its end label |
| Ticks.XTicks.Fill | src/ticks.rs:23-30 | the labels, the spacings and the fill add up to exactly the width |
| Ticks.XTicks.Line | src/ticks.rs:22-32 | the x tick line is exactly `width` characters long and its first label starts at column 0 |
| Ticks.XTicks.Fmt | src/ticks.rs:22-32 | the formatting loop writes exactly the specified x tick line |
| Ticks.XTicksOfDomain | src/ticks.rs:11-32 | with the two domain labels fitting, the line is the start label, `width` minus both label widths blanks, then the end label, and no fill |
| Ticks.YTicks.New | src/ticks.rs:42-49 | the y labels are the codomain's end label, then its start label, attached to rows 0 and `row_count - 1` |
| Ticks.YTicks.DisplayWidth | src/ticks.rs:52-58 | the label column is at least as wide as every label, is 0 without labels, and is the width of some label otherwise |
| Ticks.Position | src/ticks.rs:62-65 | `position` finds the first index holding the value, or reports that no index holds it |
| Ticks.YTicks.Get | src/ticks.rs:61-70 | the label of the first entry attached to the row, or the empty string when no entry is, and never wider than the label column; `YTicksRows` gives the labels of `YTicks::new` row by row |
| Ticks.YTicksRows | src/ticks.rs:42-70 | row 0 shows the end label, the last row the start label, other rows nothing; with one row the end label wins |
| Views.AlignRight | src/lib.rs:355 | `{: >offset$}` right-aligns a text in `offset` columns with blanks and never cuts it |
| Views.View.DrawAxis | src/lib.rs:325-328 | the x axis (y = 0 across the domain) is drawn, then the y axis (x = 0 across the codomain) |
| Views.View.DrawPlots | src/lib.rs:331-335 | every plot's segments are drawn in the order the plots were added |
| Views.View.Drawing | src/lib.rs:341-359 | `drawing` panics on a zero width or height (projecting the first axis clamps into an empty range); otherwise it rasterizes the axes followed by all plots, and undecorated returns those rows, decorated the labelled rows and tick line, or the panic |
| Views.DefaultView | src/lib.rs:308-321 | the derived `View::default`: both axes `Domain::default` (-10..10, lib.rs:367-371), `Size::default` (100 by 100, lib.rs:167-171), no plots; its frame can be projected onto |
| Views.RenderOutcome | src/lib.rs:341-359 | undecorated rows come back untouched; decorated drawing panics exactly when there are no rows or the x labels are wider than a row |
| Views.YTicksWidth | src/ticks.rs:42-58 | the label column is as wide as the wider of the codomain's two labels |
| Views.RenderRows | src/lib.rs:349-358 | decorated output has one line more than the rows: end label before the top row, start label before the bottom row, blanks elsewhere, and the x tick line last |
| Views.Decorate | src/lib.rs:349-358 | labelling the rasterized rows line by line gives exactly the decorated outcome the specification `FromRows` describes, including the panics on no rows and on x labels wider than the first row |
| Views.RenderedAxis | src/lib.rs:349-358 | a decorated rendering has one line per rasterized row plus the x tick line, indented by the label column, last |
| Views.RenderedRow | src/lib.rs:353-356 | decorated row `i` is the row behind the end label (first row), the start label (last row) or blanks, right-aligned to the label column |
| Views.RenderRectangular | src/lib.rs:349-358 | when the rasterized rows are equally wide, every decorated line is as wide as the label column plus a row |
| Views.AddPlotLayers | src/lib.rs:232-235 | adding a plot appends its pixels after everything drawn before, and the axes always come first |
| Views.Plot.constructor | src/lib.rs:202-212 | `Plot::default`: empty title and labels, the default view, decorated |
| Views.Plot.AddPlot | src/lib.rs:232-235 | the plot goes after the existing plots and nothing else changes |
| Views.Plot.SetDomain | src/lib.rs:242-245 | only the view's domain changes |
| Views.Plot.SetCodomain | src/lib.rs:252-255 | only the view's codomain changes |
| Views.Plot.SetTitle | src/lib.rs:258-261 | only the title changes |
| Views.Plot.SetXLabel | src/lib.rs:266-269 | only the x label changes |
| Views.Plot.SetYLabel | src/lib.rs:274-277 | only the y label changes |
| Views.Plot.SetSize | src/lib.rs:283-286 | only the view's size changes |
| Views.Plot.Display | src/lib.rs:289-294 | undecorated, the rows are joined with newlines; decorated, the labelled rows go inside the frame; a panic aborts |

## Left out

- drawille's Braille rasterizer (`ViewCanvas::rows`, `drawille::Canvas::line` and `set`) is not part of this model. `View.Drawing` takes it as the `rasterize` parameter, and the canvas records primitives rather than setting dots.
- The `{:.1}` formatting of tick values is a parameter (`labelOf`). Its output is one-byte characters, so `label.len()` (bytes) and the character count that padding uses agree. The model measures every label in characters.
- The decorated branch of `Plot`'s `Display` (the box-drawing frame, the centred title and the axis labels under it) is left out. `Plot.Display` returns the rows that go inside the frame as `Framed`.
- IEEE behaviour (NaN, infinities, rounding error) is not modelled: `f64` is an exact real. A graph function's non-finite results are `None`.
- Domains.Domain.Iter: requires at least one step. With 0 steps the source divides by zero and steps by infinity (or NaN), which exact reals cannot express. `drawing` never asks for 0 steps: with a zero width it has already panicked.
- Canvas.Frame.ProjectOnCanvas, Views.View.Drawing: a domain or codomain of zero range is excluded by `requires`. There the source divides by zero, and projection turns the infinities or NaN into a clamped edge or 0 through `as u32`. A zero width or height is modelled: `drawing` returns `Panicked(EmptyCanvas)`, as `f64::clamp(0.0, -1.0)` panics.
- Domains.DomainIterator: the constructor requires a positive step when the domain is ordered. `DomainIterator::new` is public and takes any step; with start < end and a step of 0 or less, `next` never returns `None` and the iterator never ends. Such an iterator has no finite `Remaining()` sequence to state `Next` against. The crate's only caller, `Domain::iter` with at least one step, always passes a positive step.
- Plots.Histogram.NewWithBucketsCount: requires at least one value, because with none the source's folds start from the infinities and produce NaN buckets. With `count == 0` the source divides by zero but never uses the quotient, and the model builds no buckets.
- The `u32` casts of `project_on_canvas` and the `usize` to `f64` conversions are exact in the model. The projected values are already clamped into the grid, so no cast truncates there.
- `DrawView` implementations other than `Graph`, `Bars` and `Histogram` are closed over as the `Drawable` datatype. User-defined plots are not modelled.
- The `view` argument of `DrawView::draw` is the frame the canvas already holds (`canvas.frame`). The plots only ever read the domain, codomain and size through it.
- The unused `_count` arguments of `XTicks::new` and `YTicks::new` are dropped.
- The `&mut Self` that every `Plot` setter returns for chaining is dropped.
- `Size::new` and `Bar::new` are plain datatype constructors.
