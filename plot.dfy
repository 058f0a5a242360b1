/**
 * The drawable plot variants of src/plot.rs and the geometry each one asks
 * the canvas to draw, in plotting coordinates.
 */
module Plots {
  import opened Wrappers
  import opened Domains
  import opened Canvas

  /** `std::ops::Range<f64>` as a histogram bucket: the half-open interval `start..end`. */
  datatype Interval = Interval(start: real, end: real) {
    /** `Range::contains`. */
    predicate Contains(v: real) {
      start <= v < end
    }
  }

  // ---------------------------------------------------------------- Graph

  /**
   * `Graph`: a continuous function. The closure's result is `None` where the
   * source's `f64` result is not finite (NaN or an infinity).
   */
  datatype Graph = Graph(f: real -> Option<real>) {
    /** The segments `Graph::draw` asks for on a view: consecutive finite samples joined. */
    function Lines(frame: Frame): seq<Segment>
      requires frame.size.w >= 1
    {
      Joins(Retained(frame.domain.Sample(frame.size.w), f))
    }

    /** `Graph::draw`: samples the domain once per pixel column, drops non-finite results, joins the rest. */
    method Draw(canvas: ViewCanvas)
      requires canvas.frame.Valid()
      modifies canvas
      ensures canvas.canvas == old(canvas.canvas) + canvas.frame.Pixels(Lines(canvas.frame))
    {
      var frame := canvas.frame;
      var it := frame.domain.Iter(frame.size.w);
      var points := CollectFinite(it, f);
      JoinsAt(points);
      var lines := Joins(points);
      var i := 0;
      while i + 1 < |points|
        invariant |points| >= 1 ==> i <= |points| - 1
        invariant |points| == 0 ==> i == 0
        invariant canvas.canvas == old(canvas.canvas) + frame.Pixels(lines[..i])
      {
        canvas.Line(points[i].0, points[i].1, points[i + 1].0, points[i + 1].1);
        assert lines[..i + 1] == lines[..i] + [lines[i]];
        PixelsAppend(frame, lines[..i], [lines[i]]);
        i := i + 1;
      }
      assert lines[..i] == lines;
    }
  }

  /** The `filter_map(..).collect()` of `Graph::draw`: drains the sampler, keeping finite values. */
  method CollectFinite(it: DomainIterator, f: real -> Option<real>) returns (points: seq<(real, real)>)
    requires it.Valid()
    modifies it
    ensures points == Retained(old(it.Remaining()), f)
  {
    ghost var xs := it.Remaining();
    ghost var k := 0;
    points := [];
    while true
      invariant it.Valid()
      invariant k <= |xs| && it.Remaining() == xs[k..]
      invariant points == Retained(xs[..k], f)
      decreases |xs| - k
    {
      var next := it.Next();
      if next.None? {
        assert xs[..k] == xs;
        break;
      }
      var x := next.value;
      var y := f(x);
      if y.Some? {
        points := points + [(x, y.value)];
      }
      RetainedSnoc(xs[..k], x, f);
      assert xs[..k + 1] == xs[..k] + [x];
      k := k + 1;
    }
  }

  /** Filtering one more sample appends that sample's contribution. */
  lemma RetainedSnoc(xs: seq<real>, x: real, f: real -> Option<real>)
    ensures Retained(xs + [x], f) == Retained(xs, f) + Kept(x, f)
  {
    RetainedAppend(xs, [x], f);
    assert [x][1..] == [];
  }

  /** The `filter_map` of `Graph::draw`: each sample paired with its finite value, in order. */
  function Retained(xs: seq<real>, f: real -> Option<real>): (ps: seq<(real, real)>)
    ensures |ps| <= |xs|
  {
    if xs == [] then [] else Kept(xs[0], f) + Retained(xs[1..], f)
  }

  /** One sample's contribution to `Retained`: the point, or nothing when the value is not finite. */
  function Kept(x: real, f: real -> Option<real>): seq<(real, real)>
  {
    if f(x).Some? then [(x, f(x).value)] else []
  }

  /** The segments `windows(2)` draws: one between each pair of neighbouring points. */
  function Joins(ps: seq<(real, real)>): seq<Segment>
  {
    if |ps| < 2 then []
    else [Segment(ps[0].0, ps[0].1, ps[1].0, ps[1].1)] + Joins(ps[1..])
  }

  /** `k` points give `max(0, k - 1)` segments, segment `j` joining points `j` and `j + 1`. */
  lemma {:induction false} JoinsAt(ps: seq<(real, real)>)
    ensures |Joins(ps)| == if |ps| < 2 then 0 else |ps| - 1
    ensures forall j :: 0 <= j < |Joins(ps)| ==>
      Joins(ps)[j] == Segment(ps[j].0, ps[j].1, ps[j + 1].0, ps[j + 1].1)
  {
    if |ps| >= 2 {
      JoinsAt(ps[1..]);
    }
  }

  /** Filtering a concatenation filters each part. */
  lemma {:induction false} RetainedAppend(a: seq<real>, b: seq<real>, f: real -> Option<real>)
    ensures Retained(a + b, f) == Retained(a, f) + Retained(b, f)
  {
    if a == [] {
      assert a + b == b;
    } else {
      var x, rest := a[0], a[1..];
      assert a == [x] + rest;
      assert a + b == [x] + (rest + b);
      RetainedAppend(rest, b, f);
      RetainedCons(x, rest + b, f);
      RetainedCons(x, rest, f);
      var k, r, t := Kept(x, f), Retained(rest, f), Retained(b, f);
      assert k + (r + t) == (k + r) + t;
    }
  }

  /** Filtering a sample followed by more samples keeps that sample's point first. */
  lemma RetainedCons(x: real, xs: seq<real>, f: real -> Option<real>)
    ensures Retained([x] + xs, f) == Kept(x, f) + Retained(xs, f)
  {
    assert ([x] + xs)[1..] == xs;
  }

  /** A segment joining two points stays a segment however the points are surrounded. */
  lemma {:induction false} JoinsKeepsPair(a: seq<(real, real)>, p: (real, real), q: (real, real), b: seq<(real, real)>)
    ensures Segment(p.0, p.1, q.0, q.1) in Joins(a + [p, q] + b)
  {
    if a == [] {
      assert [p, q] + b == [p] + ([q] + b);
    } else {
      assert (a + [p, q] + b)[1..] == a[1..] + [p, q] + b;
      JoinsKeepsPair(a[1..], p, q, b);
    }
  }

  /**
   * A non-finite sample does not break the curve: its two finite
   * neighbours are joined by one segment across it.
   */
  lemma GapIsBridged(xs: seq<real>, f: real -> Option<real>, i: nat)
    requires 0 < i < |xs| - 1
    requires f(xs[i - 1]).Some? && f(xs[i]).None? && f(xs[i + 1]).Some?
    ensures Segment(xs[i - 1], f(xs[i - 1]).value, xs[i + 1], f(xs[i + 1]).value) in Joins(Retained(xs, f))
  {
    var p := (xs[i - 1], f(xs[i - 1]).value);
    var q := (xs[i + 1], f(xs[i + 1]).value);
    var pre, tail := xs[..i - 1], xs[i - 1..];
    assert xs == pre + tail;
    var mid, post := tail[..3], tail[3..];
    assert tail == mid + post;
    RetainedAppend(pre, mid + post, f);
    RetainedAppend(mid, post, f);
    RetainedOfGap(mid, f);
    var a, b := Retained(pre, f), Retained(post, f);
    assert Retained(mid, f) == [p, q];
    assert Retained(xs, f) == a + ([p, q] + b);
    assert a + ([p, q] + b) == a + [p, q] + b;
    JoinsKeepsPair(Retained(pre, f), p, q, Retained(post, f));
  }

  lemma RetainedOfGap(mid: seq<real>, f: real -> Option<real>)
    requires |mid| == 3 && f(mid[0]).Some? && f(mid[1]).None? && f(mid[2]).Some?
    ensures Retained(mid, f) == [(mid[0], f(mid[0]).value), (mid[2], f(mid[2]).value)]
  {
    assert Retained(mid[1..][1..][1..], f) == [];
    assert Retained(mid[1..][1..], f) == Kept(mid[2], f);
    assert Retained(mid[1..], f) == Kept(mid[2], f);
  }

  // ---------------------------------------------------------------- Bar

  /** `Bar`: one rectangle outline standing on `y = 0`. */
  datatype Bar = Bar(x: real, width: real, height: real) {
    /**
     * What `Bar::draw` draws, in order: the left side, the right side, then
     * the top. Nothing is drawn along the baseline.
     */
    function Segments(): (s: seq<Segment>)
      ensures |s| == 3
      ensures s[0].x0 == s[0].x1 == x && s[1].x0 == s[1].x1 == x + width
      ensures s[0].y0 == s[1].y0 == 0.0 && s[0].y1 == s[1].y1 == height
      ensures s[2] == Segment(x, height, x + width, height)
      ensures height != 0.0 ==> forall i :: 0 <= i < |s| ==> s[i].y0 != 0.0 || s[i].y1 != 0.0
    {
      [Segment(x, 0.0, x, height), Segment(x + width, 0.0, x + width, height), Segment(x, height, x + width, height)]
    }

    /** `Bar::draw`. */
    method Draw(canvas: ViewCanvas)
      requires canvas.frame.Valid()
      modifies canvas
      ensures canvas.canvas == old(canvas.canvas) + canvas.frame.Pixels(Segments())
    {
      canvas.Line(x, 0.0, x, height);
      canvas.Line(x + width, 0.0, x + width, height);
      canvas.Line(x, height, x + width, height);
    }
  }

  /** The segments of a sequence of bars drawn in order. */
  function BarLines(bars: seq<Bar>): seq<Segment>
  {
    if bars == [] then [] else BarLines(bars[..|bars| - 1]) + bars[|bars| - 1].Segments()
  }

  /** Bars draw three segments each, bar `i` owning segments `3i .. 3i + 3`. */
  lemma {:induction false} BarLinesAt(bars: seq<Bar>)
    ensures |BarLines(bars)| == 3 * |bars|
    ensures forall i :: 0 <= i < |bars| ==> BarLines(bars)[3 * i..3 * i + 3] == bars[i].Segments()
  {
    if bars != [] {
      var init := bars[..|bars| - 1];
      BarLinesAt(init);
      forall i | 0 <= i < |bars|
        ensures BarLines(bars)[3 * i..3 * i + 3] == bars[i].Segments()
      {
        if i < |init| {
          assert bars[i] == init[i];
          assert BarLines(bars)[3 * i..3 * i + 3] == BarLines(init)[3 * i..3 * i + 3];
        }
      }
    }
  }

  /** Draws each bar in stored order: the body of `Bars::draw` and `Histogram::draw`. */
  method DrawBars(bars: seq<Bar>, canvas: ViewCanvas)
    requires canvas.frame.Valid()
    modifies canvas
    ensures canvas.canvas == old(canvas.canvas) + canvas.frame.Pixels(BarLines(bars))
  {
    for i := 0 to |bars|
      invariant canvas.canvas == old(canvas.canvas) + canvas.frame.Pixels(BarLines(bars[..i]))
    {
      bars[i].Draw(canvas);
      assert bars[..i + 1][..i] == bars[..i];
      PixelsAppend(canvas.frame, BarLines(bars[..i]), bars[i].Segments());
    }
    assert bars[..|bars|] == bars;
  }

  // ---------------------------------------------------------------- Bars

  /** `Bars`: a bar chart. */
  datatype Bars = Bars(bars: seq<Bar>) {
    /** `Bars::new`: one bar per height, in order, bar `i` standing at `x = i` and one unit wide. */
    static function New(heights: seq<real>): (b: Bars)
      ensures |b.bars| == |heights|
      ensures forall i :: 0 <= i < |heights| ==> b.bars[i] == Bar(i as real, 1.0, heights[i])
    {
      Bars(Enumerated(heights, 0))
    }

    /** `Bars::draw`: every bar in order. */
    method Draw(canvas: ViewCanvas)
      requires canvas.frame.Valid()
      modifies canvas
      ensures canvas.canvas == old(canvas.canvas) + canvas.frame.Pixels(BarLines(bars))
    {
      DrawBars(bars, canvas);
    }
  }

  /** The `enumerate().map(..)` of `Bars::new`, counting from `first`. */
  function Enumerated(heights: seq<real>, first: nat): (bars: seq<Bar>)
    ensures |bars| == |heights|
    ensures forall i :: 0 <= i < |heights| ==> bars[i] == Bar((first + i) as real, 1.0, heights[i])
  {
    if heights == [] then []
    else [Bar(first as real, 1.0, heights[0])] + Enumerated(heights[1..], first + 1)
  }

  // ---------------------------------------------------------------- Histogram

  /** `Histogram`: one bar per bucket. */
  datatype Histogram = Histogram(buckets: seq<Bar>) {
    /**
     * `Histogram::new`: bucket `range` becomes a bar standing on
     * `range.start`, as wide as the range and as high as the number of values
     * it contains.
     */
    static function New(values: seq<real>, bucketsRange: seq<Interval>): Histogram
    {
      Histogram(seq(|bucketsRange|, i requires 0 <= i < |bucketsRange| =>
        Bar(bucketsRange[i].start, bucketsRange[i].end - bucketsRange[i].start, CountIn(values, bucketsRange[i]) as real)))
    }

    /**
     * `Histogram::new_with_buckets_count`: `count` buckets of equal width
     * laid end to end from the least value to the greatest.
     */
    static function NewWithBucketsCount(values: seq<real>, count: nat): (h: Histogram)
      requires |values| >= 1
      ensures |h.buckets| == count
      ensures count >= 1 ==> h.buckets[0].x == MinOf(values)
      ensures count >= 1 ==>
        var width := (MaxOf(values) - MinOf(values)) / count as real;
        forall i :: 0 <= i < count ==>
          h.buckets[i].width == width && h.buckets[i].x == Edge(MinOf(values), width, i as real)
    {
      var max := MaxOf(values);
      var min := MinOf(values);
      // The source divides by `count` even when it is 0; the quotient is then never used.
      if count == 0 then New(values, EvenBuckets(min, 0.0, 0))
      else
        var width := (max - min) / count as real;
        EvenHistogram(values, min, width, count);
        New(values, EvenBuckets(min, width, count))
    }

    /** `Histogram::draw`: every bucket's bar in order. */
    method Draw(canvas: ViewCanvas)
      requires canvas.frame.Valid()
      modifies canvas
      ensures canvas.canvas == old(canvas.canvas) + canvas.frame.Pixels(BarLines(buckets))
    {
      DrawBars(buckets, canvas);
    }
  }

  /** The `filter(..).count()` of `Histogram::new`: how many values the range contains. */
  function CountIn(values: seq<real>, range: Interval): (n: nat)
    ensures n <= |values|
  {
    if values == [] then 0
    else CountIn(values[..|values| - 1], range) + (if range.Contains(values[|values| - 1]) then 1 else 0)
  }

  /** The positions of the values a range contains. */
  ghost function Hits(values: seq<real>, range: Interval): set<nat>
  {
    set i: nat | i < |values| && range.Contains(values[i])
  }

  /** `CountIn` counts values with repetition: one per position whose value lies in the range. */
  lemma {:induction false} CountInIsHits(values: seq<real>, range: Interval)
    ensures CountIn(values, range) == |Hits(values, range)|
  {
    if values != [] {
      var n := |values| - 1;
      var init := values[..n];
      CountInIsHits(init, range);
      assert forall i :: 0 <= i < n ==> values[i] == init[i];
      if range.Contains(values[n]) {
        assert Hits(values, range) == Hits(init, range) + {n};
      } else {
        assert Hits(values, range) == Hits(init, range);
      }
    }
  }

  /** The greatest value: the `fold(NEG_INFINITY, f64::max)` of a non-empty sequence. */
  function MaxOf(values: seq<real>): (m: real)
    requires |values| >= 1
    ensures m in values
    ensures forall v :: v in values ==> v <= m
  {
    if |values| == 1 then values[0]
    else
      var rest := MaxOf(values[..|values| - 1]);
      assert values == values[..|values| - 1] + [values[|values| - 1]];
      if values[|values| - 1] > rest then values[|values| - 1] else rest
  }

  /** The least value: the `fold(INFINITY, f64::min)` of a non-empty sequence. */
  function MinOf(values: seq<real>): (m: real)
    requires |values| >= 1
    ensures m in values
    ensures forall v :: v in values ==> m <= v
  {
    if |values| == 1 then values[0]
    else
      var rest := MinOf(values[..|values| - 1]);
      assert values == values[..|values| - 1] + [values[|values| - 1]];
      if values[|values| - 1] < rest then values[|values| - 1] else rest
  }

  /** The ranges `new_with_buckets_count` builds: `min + width * i .. min + width * (i + 1)`. */
  function EvenBuckets(min: real, width: real, count: nat): seq<Interval>
  {
    seq(count, idx requires 0 <= idx < count => Interval(Edge(min, width, idx as real), Edge(min, width, idx as real + 1.0)))
  }

  /** The bucket edge `min + width * k`. */
  function Edge(min: real, width: real, k: real): real
  {
    min + width * k
  }

  /**
   * `Histogram::new` keeps the buckets' order: bar `i` stands on bucket `i`'s
   * start, is as wide as the bucket, and is as high as the number of
   * positions whose value lies in the bucket.
   */
  lemma HistogramBars(values: seq<real>, bucketsRange: seq<Interval>)
    ensures var h := Histogram.New(values, bucketsRange);
      |h.buckets| == |bucketsRange|
      && forall i :: 0 <= i < |bucketsRange| ==>
        h.buckets[i].x == bucketsRange[i].start
        && h.buckets[i].width == bucketsRange[i].end - bucketsRange[i].start
        && h.buckets[i].height == |Hits(values, bucketsRange[i])| as real
  {
    forall i | 0 <= i < |bucketsRange|
      ensures CountIn(values, bucketsRange[i]) == |Hits(values, bucketsRange[i])|
    {
      CountInIsHits(values, bucketsRange[i]);
    }
  }

  /** How many of the ranges contain `v`. */
  function Memberships(v: real, ranges: seq<Interval>): nat
  {
    if ranges == [] then 0
    else Memberships(v, ranges[..|ranges| - 1]) + (if ranges[|ranges| - 1].Contains(v) then 1 else 0)
  }

  /** The memberships of all values, counted with repetition. */
  function TotalMemberships(values: seq<real>, ranges: seq<Interval>): nat
  {
    if values == [] then 0
    else TotalMemberships(values[..|values| - 1], ranges) + Memberships(values[|values| - 1], ranges)
  }

  /** The sum of the bars' heights. */
  function SumHeights(bars: seq<Bar>): real
  {
    if bars == [] then 0.0 else SumHeights(bars[..|bars| - 1]) + bars[|bars| - 1].height
  }

  /**
   * Buckets are counted independently: the heights add up to the number of
   * (value, bucket) pairs with the value inside the bucket, so a value in
   * several overlapping buckets counts in each and a value in none counts
   * nowhere.
   */
  lemma {:induction false} HistogramTotal(values: seq<real>, bucketsRange: seq<Interval>)
    ensures SumHeights(Histogram.New(values, bucketsRange).buckets) == TotalMemberships(values, bucketsRange) as real
  {
    if bucketsRange == [] {
      NoMemberships(values);
    } else {
      var n := |bucketsRange| - 1;
      var init := bucketsRange[..n];
      HistogramTotal(values, init);
      var bars := Histogram.New(values, bucketsRange).buckets;
      assert bars[..n] == Histogram.New(values, init).buckets;
      assert SumHeights(bars) == SumHeights(bars[..n]) + CountIn(values, bucketsRange[n]) as real;
      TotalMembershipsSnoc(values, init, bucketsRange[n]);
      assert init + [bucketsRange[n]] == bucketsRange;
    }
  }

  lemma {:induction false} NoMemberships(values: seq<real>)
    ensures TotalMemberships(values, []) == 0
  {
    if values != [] {
      NoMemberships(values[..|values| - 1]);
    }
  }

  lemma {:induction false} TotalMembershipsSnoc(values: seq<real>, ranges: seq<Interval>, r: Interval)
    ensures TotalMemberships(values, ranges + [r]) == TotalMemberships(values, ranges) + CountIn(values, r)
  {
    if values != [] {
      var n := |values| - 1;
      TotalMembershipsSnoc(values[..n], ranges, r);
      assert (ranges + [r])[..|ranges|] == ranges;
    }
  }

  /** Values 1, 1, 3, 3, 5 in buckets 0..2, 2..4, 4..6 give bars of heights 2, 2 and 1. */
  lemma HistogramExample()
    ensures var h := Histogram.New([1.0, 1.0, 3.0, 3.0, 5.0], [Interval(0.0, 2.0), Interval(2.0, 4.0), Interval(4.0, 6.0)]);
      |h.buckets| == 3
      && h.buckets[0].height == 2.0 && h.buckets[1].height == 2.0 && h.buckets[2].height == 1.0
  {
    var v := [1.0, 1.0, 3.0, 3.0, 5.0];
    var a, b, c := Interval(0.0, 2.0), Interval(2.0, 4.0), Interval(4.0, 6.0);
    assert v[..4] == [1.0, 1.0, 3.0, 3.0] && v[..4][..3] == [1.0, 1.0, 3.0];
    assert v[..4][..3][..2] == [1.0, 1.0] && [1.0, 1.0][..1] == [1.0] && [1.0][..0] == [];
    assert CountIn([1.0, 1.0], a) == 2 && CountIn([1.0, 1.0], b) == 0 && CountIn([1.0, 1.0], c) == 0;
    assert CountIn([1.0, 1.0, 3.0, 3.0], a) == 2 && CountIn([1.0, 1.0, 3.0, 3.0], b) == 2;
    assert CountIn([1.0, 1.0, 3.0, 3.0], c) == 0;
    assert CountIn(v, a) == 2 && CountIn(v, b) == 2 && CountIn(v, c) == 1;
  }

  /**
   * `new_with_buckets_count` builds exactly `count` ranges laid end to end:
   * the first starts at `min` and each one ends where the next starts.
   */
  lemma EvenBucketsContiguous(min: real, width: real, count: nat)
    ensures var r := EvenBuckets(min, width, count);
      |r| == count
      && (count > 0 ==> r[0].start == min)
      && forall i :: 0 <= i < count - 1 ==> r[i].end == r[i + 1].start
  {
  }

  /** The histogram over even ranges has one bar per range, each `width` wide, bar `i` standing `i` widths after `min`. */
  lemma EvenHistogram(values: seq<real>, min: real, width: real, count: nat)
    ensures var h := Histogram.New(values, EvenBuckets(min, width, count));
      |h.buckets| == count
      && (count >= 1 ==> h.buckets[0].x == min)
      && forall i :: 0 <= i < count ==>
        h.buckets[i].width == width && h.buckets[i].x == Edge(min, width, i as real)
  {
    EvenBucketsEqual(min, width, count);
    HistogramBars(values, EvenBuckets(min, width, count));
  }

  /** Every range is `width` wide, and range `i` starts `i` widths after `min`. */
  lemma EvenBucketsEqual(min: real, width: real, count: nat)
    ensures var r := EvenBuckets(min, width, count);
      forall i :: 0 <= i < count ==>
        r[i].start == min + i as real * width && r[i].end - r[i].start == width
  {
    var r := EvenBuckets(min, width, count);
    forall i | 0 <= i < count
      ensures r[i].start == min + i as real * width && r[i].end - r[i].start == width
    {
      var k := i as real;
      assert width * (k + 1.0) == width * k + width;
    }
  }

  /**
   * With `count >= 1` buckets over non-empty values, the buckets run from the
   * least value to the greatest, and since they are half-open the greatest
   * value is counted in none of them.
   */
  lemma BucketsByCountSpan(values: seq<real>, count: nat)
    requires |values| >= 1 && count >= 1
    ensures var min, max := MinOf(values), MaxOf(values);
      var r := EvenBuckets(min, (max - min) / count as real, count);
      r[0].start == min && r[count - 1].end == max
      && forall i :: 0 <= i < count ==> r[i].end <= max && !r[i].Contains(max)
  {
    var min, max := MinOf(values), MaxOf(values);
    MinBelowMax(values);
    WidthSpansValues(min, max, count);
    EvenBucketsEndAt(min, (max - min) / count as real, max, count);
  }

  lemma MinBelowMax(values: seq<real>)
    requires |values| >= 1
    ensures MinOf(values) <= MaxOf(values)
  {
    assert MinOf(values) in values;
  }

  lemma EvenBucketsEndAt(min: real, width: real, max: real, count: nat)
    requires width >= 0.0 && count >= 1 && Edge(min, width, count as real) == max
    ensures var r := EvenBuckets(min, width, count);
      r[0].start == min && r[count - 1].end == max
      && forall i :: 0 <= i < count ==> r[i].end <= max && !r[i].Contains(max)
  {
    var r := EvenBuckets(min, width, count);
    assert (count - 1) as real + 1.0 == count as real;
    forall i | 0 <= i < count
      ensures r[i].end <= max
    {
      BucketEndBelow(min, width, count, i);
    }
  }

  lemma WidthSpansValues(min: real, max: real, count: nat)
    requires min <= max && count >= 1
    ensures (max - min) / count as real >= 0.0
    ensures Edge(min, (max - min) / count as real, count as real) == max
  {
  }

  lemma BucketEndBelow(min: real, width: real, count: nat, i: nat)
    requires width >= 0.0 && i < count
    ensures Edge(min, width, i as real + 1.0) <= Edge(min, width, count as real)
  {
    MulMonotone(i as real + 1.0, count as real, width);
  }

  /** When all values are equal every bucket is empty-width, and every bar has height 0. */
  lemma BucketsOfEqualValues(values: seq<real>, count: nat)
    requires |values| >= 1
    requires forall i :: 0 <= i < |values| ==> values[i] == values[0]
    ensures var h := Histogram.NewWithBucketsCount(values, count);
      |h.buckets| == count
      && forall i :: 0 <= i < count ==> h.buckets[i].width == 0.0 && h.buckets[i].height == 0.0
  {
    var min, max := MinOf(values), MaxOf(values);
    assert min == values[0] == max;
    var r := EvenBuckets(min, 0.0, count);
    forall i | 0 <= i < count
      ensures CountIn(values, r[i]) == 0
    {
      NothingInEmptyRange(values, r[i]);
    }
  }

  lemma {:induction false} NothingInEmptyRange(values: seq<real>, range: Interval)
    requires range.end <= range.start
    ensures CountIn(values, range) == 0
  {
    if values != [] {
      NothingInEmptyRange(values[..|values| - 1], range);
    }
  }

  // ---------------------------------------------------------------- all plots

  /** The closed set of drawable plots: a tagged union in place of `Box<dyn DrawView>`. */
  datatype Drawable =
    | GraphPlot(graph: Graph)
    | BarsPlot(bars: Bars)
    | HistogramPlot(histogram: Histogram)
  {
    /** The segments the plot asks for on a view. */
    function Lines(frame: Frame): seq<Segment>
      requires frame.size.w >= 1
    {
      match this
      case GraphPlot(g) => g.Lines(frame)
      case BarsPlot(b) => BarLines(b.bars)
      case HistogramPlot(h) => BarLines(h.buckets)
    }

    /** `DrawView::draw`, dispatched on the variant. */
    method Draw(canvas: ViewCanvas)
      requires canvas.frame.Valid()
      modifies canvas
      ensures canvas.canvas == old(canvas.canvas) + canvas.frame.Pixels(Lines(canvas.frame))
    {
      match this
      case GraphPlot(g) => g.Draw(canvas);
      case BarsPlot(b) => b.Draw(canvas);
      case HistogramPlot(h) => h.Draw(canvas);
    }
  }
}
