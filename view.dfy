/**
 * The plotting space and the plot around it (src/lib.rs): `View` draws its
 * axes and then its plots on a `ViewCanvas`, turns the canvas into rows and
 * labels them with ticks; `Plot` holds a view and the texts around it.
 *
 * Turning the recorded primitives into rows of Braille characters is the
 * drawille crate's work: it enters here as the `rasterize` parameter. The
 * `{:.1}` formatting of tick values enters as the `labelOf` parameter.
 */
module Views {
  import opened Domains
  import opened Canvas
  import opened Plots
  import opened Ticks

  /** Why `View::drawing` panics. */
  datatype Panic =
    | NoRows        // `rows[0]` on a canvas that gave no rows
    | TicksTooWide  // the x tick labels are wider than a row (unsigned underflow in `XTicks::fmt`)
    | EmptyCanvas   // `clamp(0.0, -1.0)` in `project_on_canvas` when the width or the height is 0

  /** What `View::drawing` ends with: its rows, or a panic. */
  datatype Outcome = Rendered(rows: seq<string>) | Panicked(reason: Panic)

  /** drawille's `Canvas::rows`, given the canvas size and what was drawn on it. */
  type Rasterizer = (Size, seq<Primitive>) -> seq<string>

  /** `{: >width$}`: the text right-aligned in `width` columns, never cut. */
  function AlignRight(s: string, width: nat): (r: string)
    ensures |r| == if |s| >= width then |s| else width
    ensures r[|r| - |s|..] == s
    ensures forall i :: 0 <= i < |r| - |s| ==> r[i] == ' '
  {
    if |s| >= width then s else Spaces(width - |s|) + s
  }

  /** The segments of all `plots`, in order. */
  function PlotSegments(plots: seq<Drawable>, frame: Frame): seq<Segment>
    requires frame.size.w >= 1
  {
    if plots == [] then []
    else PlotSegments(plots[..|plots| - 1], frame) + plots[|plots| - 1].Lines(frame)
  }

  /** The segments of the first `i + 1` plots are those of the first `i`, then plot `i`'s. */
  lemma PlotSegmentsNext(plots: seq<Drawable>, i: nat, frame: Frame)
    requires i < |plots| && frame.size.w >= 1
    ensures PlotSegments(plots[..i + 1], frame) == PlotSegments(plots[..i], frame) + plots[i].Lines(frame)
  {
    assert plots[..i + 1][..i] == plots[..i];
  }

  /** Drawing one more batch of segments on a canvas extends its pixels by that batch's. */
  lemma LayerOnTop(f: Frame, start: seq<Primitive>, done: seq<Segment>, more: seq<Segment>)
    requires f.Valid()
    ensures start + f.Pixels(done) + f.Pixels(more) == start + f.Pixels(done + more)
  {
    PixelsAppend(f, done, more);
  }

  /** `View`: the plotting space, its size in pixels and the plots drawn in it. */
  datatype View = View(domain: Domain, codomain: Domain, size: Size, plots: seq<Drawable>) {
    /** What a `ViewCanvas` reads of its view. */
    function Frame(): Frame {
      Canvas.Frame(domain, codomain, size)
    }

    /** The axes `draw_axis` draws: the line y = 0 across the domain, then x = 0 across the codomain. */
    function AxisSegments(): seq<Segment> {
      [Segment(domain.Min(), 0.0, domain.Max(), 0.0), Segment(0.0, codomain.Min(), 0.0, codomain.Max())]
    }

    /** Both axes span something: projection divides by their ranges. */
    predicate Spans() {
      domain.Range() > 0.0 && codomain.Range() > 0.0
    }

    /**
     * What `drawing` ends with. On an empty grid the first axis already
     * panics, because projecting clamps into `[0, size - 1]`, an empty range.
     */
    function Rendering(withDecoration: bool, rasterize: Rasterizer, labelOf: real -> string): Outcome
      requires Spans()
    {
      if size.w == 0 || size.h == 0 then Panicked(EmptyCanvas)
      else FromRows(withDecoration, rasterize(size, Recorded()), domain, codomain, labelOf)
    }

    /** Everything on the canvas once `drawing` has drawn the axes and the plots. */
    function Recorded(): seq<Primitive>
      requires Frame().Valid()
    {
      Frame().Pixels(AxisSegments() + PlotSegments(plots, Frame()))
    }

    /** `View::draw_axis`. */
    method DrawAxis(canvas: ViewCanvas)
      requires canvas.frame == Frame() && Frame().Valid()
      modifies canvas
      ensures canvas.canvas == old(canvas.canvas) + Frame().Pixels(AxisSegments())
    {
      canvas.Line(domain.Min(), 0.0, domain.Max(), 0.0);
      canvas.Line(0.0, codomain.Min(), 0.0, codomain.Max());
    }

    /** `View::draw_plots`: every plot in turn, in the order they were added. */
    method DrawPlots(canvas: ViewCanvas)
      requires canvas.frame == Frame() && Frame().Valid()
      modifies canvas
      ensures canvas.canvas == old(canvas.canvas) + Frame().Pixels(PlotSegments(plots, Frame()))
    {
      var frame := Frame();
      ghost var start := canvas.canvas;
      for i := 0 to |plots|
        invariant canvas.canvas == start + frame.Pixels(PlotSegments(plots[..i], frame))
      {
        plots[i].Draw(canvas);
        PlotSegmentsNext(plots, i, frame);
        LayerOnTop(frame, start, PlotSegments(plots[..i], frame), plots[i].Lines(frame));
      }
      assert plots[..|plots|] == plots;
    }

    /**
     * `View::drawing`: draws the axes and the plots, rasterizes, and when
     * decorated labels the rows and adds the x tick line.
     */
    method Drawing(withDecoration: bool, rasterize: Rasterizer, labelOf: real -> string) returns (out: Outcome)
      requires Spans()
      ensures out == Rendering(withDecoration, rasterize, labelOf)
      ensures size.w == 0 || size.h == 0 ==> out == Panicked(EmptyCanvas)
    {
      if size.w == 0 || size.h == 0 {
        return Panicked(EmptyCanvas);
      }
      var canvas := new ViewCanvas(Frame());
      DrawAxis(canvas);
      DrawPlots(canvas);
      PixelsAppend(Frame(), AxisSegments(), PlotSegments(plots, Frame()));
      assert canvas.canvas == Recorded();
      var rows := rasterize(size, canvas.canvas);
      if !withDecoration {
        return Rendered(rows);
      }
      out := Decorate(rows, domain, codomain, labelOf);
    }
  }

  /**
   * The decorated tail of `View::drawing`: each row behind its y tick label,
   * then the x tick line behind a blank label column.
   */
  method Decorate(rows: seq<string>, domain: Domain, codomain: Domain, labelOf: real -> string) returns (out: Outcome)
    ensures out == FromRows(true, rows, domain, codomain, labelOf)
  {
    if |rows| == 0 {
      return Panicked(NoRows);
    }
    var width := |rows[0]|;
    var yTicks := YTicks.New(codomain, |rows|, labelOf);
    var offset := yTicks.DisplayWidth();
    var xTicks := XTicks.New(domain, width, labelOf);
    var lines: seq<string> := [];
    for index := 0 to |rows|
      invariant lines == LabelledRows(rows[..index], yTicks, offset)
    {
      LabelledRowsNext(rows, index, yTicks, offset);
      lines := lines + [AlignRight(yTicks.Get(index), offset) + rows[index]];
    }
    assert rows[..|rows|] == rows;
    if !xTicks.Fits() {
      return Panicked(TicksTooWide);
    }
    var axis := xTicks.Fmt();
    out := Rendered(lines + [Spaces(offset) + axis]);
  }

  /** `View::default`: both axes over -10..10 on a 100 by 100 canvas, no plots. */
  function DefaultView(): (v: View)
    ensures v.Frame().Valid() && v.plots == []
  {
    View(Domain(-10.0, 10.0), Domain(-10.0, 10.0), Size(100, 100), [])
  }

  /** Each row behind its y tick label, right-aligned in the label column. */
  function LabelledRows(rows: seq<string>, yTicks: YTicks, offset: nat): seq<string>
    requires yTicks.Valid()
  {
    seq(|rows|, i requires 0 <= i < |rows| => AlignRight(yTicks.Get(i), offset) + rows[i])
  }

  /** Labelling one more row appends that row behind its label. */
  lemma LabelledRowsNext(rows: seq<string>, i: nat, yTicks: YTicks, offset: nat)
    requires i < |rows| && yTicks.Valid()
    ensures LabelledRows(rows[..i + 1], yTicks, offset)
      == LabelledRows(rows[..i], yTicks, offset) + [AlignRight(yTicks.Get(i), offset) + rows[i]]
  {
  }

  /** What `View::drawing` makes of the rasterized rows. */
  function FromRows(withDecoration: bool, rows: seq<string>, domain: Domain, codomain: Domain, labelOf: real -> string): Outcome
  {
    if !withDecoration then Rendered(rows)
    else if rows == [] then Panicked(NoRows)
    else
      var yTicks := YTicks.New(codomain, |rows|, labelOf);
      var offset := yTicks.DisplayWidth();
      var xTicks := XTicks.New(domain, |rows[0]|, labelOf);
      if !xTicks.Fits() then Panicked(TicksTooWide)
      else Rendered(LabelledRows(rows, yTicks, offset) + [Spaces(offset) + xTicks.Line()])
  }

  /**
   * Undecorated, the rows come back untouched. Decorated, `drawing` panics
   * exactly when there are no rows or the two x labels are wider than the
   * first row.
   */
  lemma RenderOutcome(withDecoration: bool, rows: seq<string>, domain: Domain, codomain: Domain, labelOf: real -> string)
    ensures !withDecoration ==> FromRows(withDecoration, rows, domain, codomain, labelOf) == Rendered(rows)
    ensures withDecoration && rows == [] ==> FromRows(withDecoration, rows, domain, codomain, labelOf) == Panicked(NoRows)
    ensures withDecoration && rows != [] ==>
      var out := FromRows(withDecoration, rows, domain, codomain, labelOf);
      var lo, hi := labelOf(domain.Min()), labelOf(domain.Max());
      (out.Rendered? <==> |lo| + |hi| <= |rows[0]|)
      && (out.Panicked? ==> out.reason == TicksTooWide)
  {
    if withDecoration && rows != [] {
      var xTicks := XTicks.New(domain, |rows[0]|, labelOf);
      var lo := labelOf(domain.Min());
      assert xTicks.labels[..1] == [lo] && [lo][..0] == [];
      assert TotalWidth([lo]) == |lo|;
    }
  }

  /** The label column is as wide as the wider of the codomain's two labels. */
  lemma YTicksWidth(codomain: Domain, rowCount: nat, labelOf: real -> string)
    requires rowCount >= 1
    ensures var top, bottom := labelOf(codomain.Max()), labelOf(codomain.Min());
      YTicks.New(codomain, rowCount, labelOf).DisplayWidth() == if |top| >= |bottom| then |top| else |bottom|
  {
    var yTicks := YTicks.New(codomain, rowCount, labelOf);
    assert yTicks.labels[1..] == [labelOf(codomain.Min())];
  }

  /**
   * A decorated drawing has one line more than the rows: the codomain's end
   * label before the top row, its start label before the bottom row, blanks
   * before every other row, and the x tick line last, all behind a label
   * column as wide as the wider y label.
   */
  lemma RenderRows(rows: seq<string>, domain: Domain, codomain: Domain, labelOf: real -> string)
    requires rows != []
    ensures
      var out := FromRows(true, rows, domain, codomain, labelOf);
      var top, bottom := labelOf(codomain.Max()), labelOf(codomain.Min());
      var offset := if |top| >= |bottom| then |top| else |bottom|;
      var n := |rows|;
      out.Rendered? ==>
        |out.rows| == n + 1
        && out.rows[0] == AlignRight(top, offset) + rows[0]
        && (n >= 2 ==> out.rows[n - 1] == AlignRight(bottom, offset) + rows[n - 1])
        && (forall i :: 0 < i < n - 1 ==> out.rows[i] == Spaces(offset) + rows[i])
        && out.rows[n] == Spaces(offset) + XTicks.New(domain, |rows[0]|, labelOf).Line()
  {
    var n := |rows|;
    RenderedAxis(rows, domain, codomain, labelOf);
    RenderedRow(rows, domain, codomain, labelOf, 0);
    RenderedRow(rows, domain, codomain, labelOf, n - 1);
    forall i | 0 < i < n - 1
      ensures var out := FromRows(true, rows, domain, codomain, labelOf);
        var top, bottom := labelOf(codomain.Max()), labelOf(codomain.Min());
        out.Rendered? ==> out.rows[i] == Spaces(if |top| >= |bottom| then |top| else |bottom|) + rows[i]
    {
      RenderedRow(rows, domain, codomain, labelOf, i);
    }
  }

  /** A decorated rendering has one line per row and the x axis line last. */
  lemma RenderedAxis(rows: seq<string>, domain: Domain, codomain: Domain, labelOf: real -> string)
    requires rows != []
    ensures
      var out := FromRows(true, rows, domain, codomain, labelOf);
      var top, bottom := labelOf(codomain.Max()), labelOf(codomain.Min());
      var offset := if |top| >= |bottom| then |top| else |bottom|;
      out.Rendered? ==>
        |out.rows| == |rows| + 1
        && out.rows[|rows|] == Spaces(offset) + XTicks.New(domain, |rows[0]|, labelOf).Line()
  {
    YTicksWidth(codomain, |rows|, labelOf);
  }

  /** One rasterized row of a decorated rendering, behind its label. */
  lemma RenderedRow(rows: seq<string>, domain: Domain, codomain: Domain, labelOf: real -> string, i: nat)
    requires i < |rows|
    ensures
      var out := FromRows(true, rows, domain, codomain, labelOf);
      var top, bottom := labelOf(codomain.Max()), labelOf(codomain.Min());
      var offset := if |top| >= |bottom| then |top| else |bottom|;
      out.Rendered? ==>
        out.rows[i] == (if i == 0 then AlignRight(top, offset)
                        else if i == |rows| - 1 then AlignRight(bottom, offset)
                        else Spaces(offset)) + rows[i]
  {
    var n := |rows|;
    var yTicks := YTicks.New(codomain, n, labelOf);
    YTicksWidth(codomain, n, labelOf);
    YTicksRows(codomain, n, labelOf, i);
    var offset := yTicks.DisplayWidth();
    var out := FromRows(true, rows, domain, codomain, labelOf);
    if out.Rendered? {
      var labelled := LabelledRows(rows, yTicks, offset);
      assert out.rows == labelled + [Spaces(offset) + XTicks.New(domain, |rows[0]|, labelOf).Line()];
      assert out.rows[i] == labelled[i] == AlignRight(yTicks.Get(i), offset) + rows[i];
      assert AlignRight("", offset) == Spaces(offset);
    }
  }

  /**
   * Decorated output is a rectangle when the rasterized rows are: every
   * line is as wide as the label column plus a row.
   */
  lemma RenderRectangular(rows: seq<string>, domain: Domain, codomain: Domain, labelOf: real -> string)
    requires rows != [] && forall i :: 0 <= i < |rows| ==> |rows[i]| == |rows[0]|
    ensures var out := FromRows(true, rows, domain, codomain, labelOf);
      var yTicks := YTicks.New(codomain, |rows|, labelOf);
      out.Rendered? ==> forall i :: 0 <= i < |out.rows| ==> |out.rows[i]| == yTicks.DisplayWidth() + |rows[0]|
  {
    var yTicks := YTicks.New(codomain, |rows|, labelOf);
    assert forall i :: 0 <= i < |rows| ==> |AlignRight(yTicks.Get(i), yTicks.DisplayWidth())| == yTicks.DisplayWidth();
  }

  /**
   * `add_plot` puts a layer on top: the canvas of the extended view is the
   * old one followed by the new plot's pixels, and the axes stay first.
   */
  lemma AddPlotLayers(v: View, p: Drawable)
    requires v.Frame().Valid()
    ensures var v' := v.(plots := v.plots + [p]);
      v'.Recorded() == v.Recorded() + v.Frame().Pixels(p.Lines(v.Frame()))
    ensures |v.Recorded()| >= 2 && v.Recorded()[..2] == v.Frame().Pixels(v.AxisSegments())
  {
    var f := v.Frame();
    var v' := v.(plots := v.plots + [p]);
    assert (v.plots + [p])[..|v.plots|] == v.plots;
    var axes, old_, new_ := v.AxisSegments(), PlotSegments(v.plots, f), p.Lines(f);
    assert PlotSegments(v'.plots, f) == old_ + new_;
    assert axes + (old_ + new_) == (axes + old_) + new_;
    PixelsAppend(f, axes + old_, new_);
    PixelsAppend(f, axes, old_);
  }

  /** `Plot`'s output: joined rows, decorated rows, or the panic. */
  datatype Text = Plain(text: string) | Framed(rows: seq<string>) | Aborted(reason: Panic)

  /** `Plot`: a view and the texts around it. */
  class Plot {
    var title: string
    var xLabel: string
    var yLabel: string
    var view: View
    var withDecoration: bool

    /** `Plot::default`. */
    constructor ()
      ensures title == "" && xLabel == "" && yLabel == ""
      ensures view == DefaultView() && withDecoration
    {
      title := "";
      xLabel := "";
      yLabel := "";
      view := DefaultView();
      withDecoration := true;
    }

    /** `add_plot`: the plot goes after the ones already there. */
    method AddPlot(plot: Drawable)
      modifies this
      ensures view == old(view).(plots := old(view.plots) + [plot])
      ensures title == old(title) && xLabel == old(xLabel) && yLabel == old(yLabel)
      ensures withDecoration == old(withDecoration)
    {
      view := view.(plots := view.plots + [plot]);
    }

    /** `set_domain`. */
    method SetDomain(domain: Domain)
      modifies this
      ensures view == old(view).(domain := domain)
      ensures title == old(title) && xLabel == old(xLabel) && yLabel == old(yLabel)
      ensures withDecoration == old(withDecoration)
    {
      view := view.(domain := domain);
    }

    /** `set_codomain`. */
    method SetCodomain(codomain: Domain)
      modifies this
      ensures view == old(view).(codomain := codomain)
      ensures title == old(title) && xLabel == old(xLabel) && yLabel == old(yLabel)
      ensures withDecoration == old(withDecoration)
    {
      view := view.(codomain := codomain);
    }

    /** `set_title`. */
    method SetTitle(title: string)
      modifies this
      ensures this.title == title && view == old(view)
      ensures xLabel == old(xLabel) && yLabel == old(yLabel)
      ensures withDecoration == old(withDecoration)
    {
      this.title := title;
    }

    /** `set_x_label`. */
    method SetXLabel(text: string)
      modifies this
      ensures xLabel == text && view == old(view)
      ensures title == old(title) && yLabel == old(yLabel)
      ensures withDecoration == old(withDecoration)
    {
      xLabel := text;
    }

    /** `set_y_label`. */
    method SetYLabel(text: string)
      modifies this
      ensures yLabel == text && view == old(view)
      ensures title == old(title) && xLabel == old(xLabel)
      ensures withDecoration == old(withDecoration)
    {
      yLabel := text;
    }

    /** `set_size`. */
    method SetSize(size: Size)
      modifies this
      ensures view == old(view).(size := size)
      ensures title == old(title) && xLabel == old(xLabel) && yLabel == old(yLabel)
      ensures withDecoration == old(withDecoration)
    {
      view := view.(size := size);
    }

    /**
     * `<Plot as Display>::fmt`: undecorated, the view's rows joined with
     * newlines; decorated, the labelled rows that go inside the frame.
     */
    method Display(rasterize: Rasterizer, labelOf: real -> string) returns (t: Text)
      requires view.Spans()
      ensures t == Shown(view.Rendering(withDecoration, rasterize, labelOf), withDecoration)
    {
      var out := view.Drawing(withDecoration, rasterize, labelOf);
      if out.Panicked? {
        return Aborted(out.reason);
      }
      if !withDecoration {
        return Plain(Join(out.rows, "\n"));
      }
      t := Framed(out.rows);
    }
  }

  /** How `Plot` shows the outcome of `View::drawing`. */
  function Shown(out: Outcome, withDecoration: bool): Text
  {
    match out
    case Panicked(reason) => Aborted(reason)
    case Rendered(rows) => if withDecoration then Framed(rows) else Plain(Join(rows, "\n"))
  }
}
