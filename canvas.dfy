/**
 * `ViewCanvas` (src/lib.rs): projection of plotting coordinates onto the
 * pixel grid, and the grid itself as a recorder of the primitives drawn on
 * it. The Braille grid of the drawing library is not modelled; only the
 * sequence of pixel-space lines and points handed to it is.
 */
module Canvas {
  import opened Domains

  /** `Size`: the view's width and height in sub-character pixels. */
  datatype Size = Size(w: nat, h: nat)

  /** A primitive handed to the pixel grid, in pixel coordinates. */
  datatype Primitive =
    | Line(x0: nat, y0: nat, x1: nat, y1: nat)
    | Point(x: nat, y: nat)

  /** A line in plotting coordinates, as a plot asks for it. */
  datatype Segment = Segment(x0: real, y0: real, x1: real, y1: real)

  /** `f64::round`: the nearest integer, halfway cases away from zero. */
  function Round(r: real): (n: int)
    ensures -0.5 <= n as real - r <= 0.5
    ensures n as real - r == 0.5 ==> r > 0.0
    ensures n as real - r == -0.5 ==> r < 0.0
  {
    if r >= 0.0 then (r + 0.5).Floor else -((-r + 0.5).Floor)
  }

  /** `clamp(lo, hi)`, which `project_on_canvas` reaches with `lo <= hi` once a zero size is ruled out. */
  function Clamp(n: int, lo: int, hi: int): (c: int)
    requires lo <= hi
    ensures lo <= c <= hi
    ensures lo <= n <= hi ==> c == n
    ensures n < lo ==> c == lo
    ensures hi < n ==> c == hi
  {
    if n < lo then lo else if n > hi then hi else n
  }

  /**
   * Rounding then clamping into `[0, n - 1]` is the same as taking the floor
   * of `r + 1/2`, because every negative result clamps to 0 anyway.
   */
  lemma ClampRoundIsFloorHalf(r: real, n: nat)
    requires n >= 1
    ensures Clamp(Round(r), 0, n - 1) == Clamp((r + 0.5).Floor, 0, n - 1)
  {
    if r < 0.0 {
      assert (r + 0.5).Floor <= 0;
    }
  }

  lemma RoundMonotone(r: real, s: real)
    requires r <= s
    ensures Round(r) <= Round(s)
  {
    if r >= 0.0 {
      assert (r + 0.5).Floor <= (s + 0.5).Floor;
    } else if s < 0.0 {
      assert (-s + 0.5).Floor <= (-r + 0.5).Floor;
    }
  }

  /** The scaling of the x axis: fraction `t` of the range lies `t * w` pixels across. */
  function Stretch(t: real, w: real): real
  {
    t * w
  }

  /** The inverted scaling of the y axis: fraction `t` of the range lies `h - t * h` pixels down. */
  function Flip(t: real, h: real): real
  {
    h - Stretch(t, h)
  }

  /** Where `v` lies along an axis, as a fraction of its range measured from its minimum. */
  function Ratio(d: Domain, v: real): real
    requires d.Range() > 0.0
  {
    (v - d.Min()) / d.Range()
  }

  /**
   * The part of a `View` that a `ViewCanvas` reads: the domain (x axis), the
   * codomain (y axis) and the pixel size.
   */
  datatype Frame = Frame(domain: Domain, codomain: Domain, size: Size) {
    /** The conditions under which projection is defined: no zero span, no empty grid. */
    predicate Valid() {
      size.w >= 1 && size.h >= 1 && domain.Range() > 0.0 && codomain.Range() > 0.0
    }

    /**
     * `project_on_canvas`: a linear map from the domain onto `[0, w]` and
     * from the codomain onto `[h, 0]` (the y axis grows downwards on the
     * grid), then rounding, then clamping onto the grid.
     */
    function ProjectOnCanvas(x: real, y: real): (p: (nat, nat))
      requires Valid()
      ensures p.0 < size.w && p.1 < size.h
    {
      (Column(x), Row(y))
    }

    /** The y half of `project_on_canvas`: the codomain maps onto `[h, 0]`. */
    function Row(y: real): nat
      requires Valid()
    {
      var height := size.h as real;
      var yTmp := Ratio(codomain, y);
      Clamp(Round(Flip(yTmp, height)), 0, size.h - 1)
    }

    /** The x half of `project_on_canvas`: the domain maps onto `[0, w]`. */
    function Column(x: real): nat
      requires Valid()
    {
      var width := size.w as real;
      var xTmp := Ratio(domain, x);
      Clamp(Round(Stretch(xTmp, width)), 0, size.w - 1)
    }

    /** The pixel line that `ViewCanvas::line` hands to the grid for a segment. */
    function LineOf(s: Segment): Primitive
      requires Valid()
    {
      var (x0, y0) := ProjectOnCanvas(s.x0, s.y0);
      var (x1, y1) := ProjectOnCanvas(s.x1, s.y1);
      Line(x0, y0, x1, y1)
    }

    /** The pixel lines recorded for a sequence of segments drawn one after the other. */
    function Pixels(segs: seq<Segment>): seq<Primitive>
      requires Valid()
    {
      seq(|segs|, i requires 0 <= i < |segs| => LineOf(segs[i]))
    }
  }

  /** Projecting the segments of two batches is projecting each batch in turn. */
  lemma PixelsAppend(f: Frame, a: seq<Segment>, b: seq<Segment>)
    requires f.Valid()
    ensures f.Pixels(a + b) == f.Pixels(a) + f.Pixels(b)
  {
    assert forall i :: 0 <= i < |a| + |b| ==> f.Pixels(a + b)[i] == (f.Pixels(a) + f.Pixels(b))[i];
  }

  /**
   * The corners of the plotting space land on the corners of the grid when
   * both axes are ordered: (min, min) on the bottom-left pixel and
   * (max, max) on the top-right one.
   */
  lemma ProjectCorners(f: Frame)
    requires f.Valid()
    requires f.domain.Min() < f.domain.Max() && f.codomain.Min() < f.codomain.Max()
    ensures f.ProjectOnCanvas(f.domain.Min(), f.codomain.Min()) == (0, f.size.h - 1)
    ensures f.ProjectOnCanvas(f.domain.Max(), f.codomain.Max()) == (f.size.w - 1, 0)
  {
    var w := f.size.w as real;
    var h := f.size.h as real;
    UnitAtMax(f.domain);
    UnitAtMax(f.codomain);
    assert Round(w) == f.size.w;
    assert Round(h) == f.size.h;
  }

  /**
   * Projection keeps the order of the x coordinates and reverses that of the
   * y coordinates, whatever the direction of either axis.
   */
  lemma ProjectMonotone(f: Frame, x: real, y: real, x': real, y': real)
    requires f.Valid()
    requires x <= x' && y <= y'
    ensures f.ProjectOnCanvas(x, y).0 <= f.ProjectOnCanvas(x', y').0
    ensures f.ProjectOnCanvas(x, y).1 >= f.ProjectOnCanvas(x', y').1
  {
    ColumnMonotone(f, x, x');
    RowAntitone(f, y, y');
  }

  lemma ColumnMonotone(f: Frame, x: real, x': real)
    requires f.Valid() && x <= x'
    ensures f.Column(x) <= f.Column(x')
  {
    var w := f.size.w as real;
    var xt := Ratio(f.domain, x);
    var xt' := Ratio(f.domain, x');
    RatioMonotone(f.domain, x, x');
    StretchMonotone(xt, xt', w, f.size.w - 1);
  }

  lemma RatioMonotone(d: Domain, v: real, v': real)
    requires d.Range() > 0.0 && v <= v'
    ensures Ratio(d, v) <= Ratio(d, v')
  {
    DivMonotone(v - d.Min(), v' - d.Min(), d.Range());
  }

  lemma RowAntitone(f: Frame, y: real, y': real)
    requires f.Valid() && y <= y'
    ensures f.Row(y) >= f.Row(y')
  {
    var h := f.size.h as real;
    var yt := Ratio(f.codomain, y);
    var yt' := Ratio(f.codomain, y');
    RatioMonotone(f.codomain, y, y');
    FlipMonotone(yt, yt', h, f.size.h - 1);
  }

  /** The scaling of the x axis keeps order. */
  lemma StretchMonotone(t: real, t': real, w: real, top: nat)
    requires t <= t' && w >= 0.0
    ensures Clamp(Round(Stretch(t, w)), 0, top) <= Clamp(Round(Stretch(t', w)), 0, top)
  {
    StretchOrder(t, t', w);
    RoundMonotone(Stretch(t, w), Stretch(t', w));
  }

  lemma StretchOrder(t: real, t': real, w: real)
    requires t <= t' && w >= 0.0
    ensures Stretch(t, w) <= Stretch(t', w)
  {
    MulMonotone(t, t', w);
  }

  /** The inverted scaling of the y axis reverses order. */
  lemma FlipMonotone(t: real, t': real, h: real, top: nat)
    requires t <= t' && h >= 0.0
    ensures Clamp(Round(Flip(t, h)), 0, top) >= Clamp(Round(Flip(t', h)), 0, top)
  {
    StretchOrder(t, t', h);
    RoundMonotone(Flip(t', h), Flip(t, h));
  }

  /** An ordered interval's maximum lies one whole range above its minimum. */
  lemma UnitAtMax(d: Domain)
    requires d.Min() < d.Max()
    ensures (d.Max() - d.Min()) / d.Range() == 1.0
    ensures (d.Min() - d.Min()) / d.Range() == 0.0
  {
    var r := d.Range();
    assert r == d.Max() - d.Min() && r > 0.0;
    SelfQuotient(r);
  }

  lemma SelfQuotient(r: real)
    requires r > 0.0
    ensures r / r == 1.0 && 0.0 / r == 0.0
  {
    var q := r / r;
    assert q * r == r;
    assert (q - 1.0) * r == 0.0;
  }

  lemma DivMonotone(a: real, b: real, c: real)
    requires a <= b && c > 0.0
    ensures a / c <= b / c
  {
  }

  lemma MulMonotone(a: real, b: real, c: real)
    requires a <= b && c >= 0.0
    ensures a * c <= b * c
  {
  }

  /**
   * `ViewCanvas`: owns the pixel grid, here the sequence of primitives drawn
   * on it so far, and projects through the view it was made for.
   */
  class ViewCanvas {
    const frame: Frame
    var canvas: seq<Primitive>

    /** `ViewCanvas::new`: a fresh, empty grid of the view's size. */
    constructor (frame: Frame)
      requires frame.Valid()
      ensures this.frame == frame && canvas == []
    {
      this.frame := frame;
      canvas := [];
    }

    /** `ViewCanvas::line`: projects both ends and draws one pixel line between them. */
    method Line(x0: real, y0: real, x1: real, y1: real)
      requires frame.Valid()
      modifies this
      ensures canvas == old(canvas) + [frame.LineOf(Segment(x0, y0, x1, y1))]
    {
      var (px0, py0) := frame.ProjectOnCanvas(x0, y0);
      var (px1, py1) := frame.ProjectOnCanvas(x1, y1);
      canvas := canvas + [Primitive.Line(px0, py0, px1, py1)];
    }

    /** `ViewCanvas::point`: projects the point and sets that one pixel. */
    method Point(x: real, y: real)
      requires frame.Valid()
      modifies this
      ensures canvas == old(canvas) + [Primitive.Point(frame.ProjectOnCanvas(x, y).0, frame.ProjectOnCanvas(x, y).1)]
    {
      var (px, py) := frame.ProjectOnCanvas(x, y);
      canvas := canvas + [Primitive.Point(px, py)];
    }
  }
}
