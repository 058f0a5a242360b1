/**
 * Tick labels of the two axes (src/ticks.rs). A label's text comes from a
 * formatter passed in as `labelOf`, standing for the source's one-decimal
 * `{:.1}` formatting; only the widths of the labels matter to the layout.
 */
module Ticks {
  import opened Wrappers
  import opened Domains

  /** `n` blanks, as a `{: >n$}` of the empty string writes them. */
  function Spaces(n: nat): (s: string)
    ensures |s| == n && forall i :: 0 <= i < n ==> s[i] == ' '
  {
    seq(n, _ => ' ')
  }

  /** The texts' lengths summed (the `fold` of `XTicks::fmt`). */
  function TotalWidth(texts: seq<string>): nat
  {
    if texts == [] then 0 else TotalWidth(texts[..|texts| - 1]) + |texts[|texts| - 1]|
  }

  /**
   * The texts written one after the other with `gap` between neighbours:
   * `XTicks::fmt` with blanks as the gap, `[String]::join` with a separator.
   */
  function Join(texts: seq<string>, gap: string): string
  {
    if texts == [] then ""
    else if |texts| == 1 then texts[0]
    else Join(texts[..|texts| - 1], gap) + gap + texts[|texts| - 1]
  }

  /** `n >= 1` joined texts are as long as the texts plus `n - 1` gaps, and start with the first text. */
  lemma {:induction false} JoinShape(labels: seq<string>, gap: string)
    requires |labels| >= 1
    ensures |Join(labels, gap)| == TotalWidth(labels) + |gap| * (|labels| - 1)
    ensures |labels[0]| <= |Join(labels, gap)| && Join(labels, gap)[..|labels[0]|] == labels[0]
  {
    var n := |labels| - 1;
    if n == 0 {
      assert labels[..0] == [];
    } else {
      var init := labels[..n];
      JoinShape(init, gap);
      assert init[0] == labels[0];
      var s := Join(init, gap);
      assert Join(labels, gap) == s + gap + labels[n];
      assert (s + gap + labels[n])[..|labels[0]|] == s[..|labels[0]|];
    }
  }

  /** Joining one more text adds the gap, unless it is the first text, then the text. */
  lemma JoinNext(texts: seq<string>, i: nat, gap: string)
    requires i < |texts|
    ensures Join(texts[..i + 1], gap) == Join(texts[..i], gap) + (if i == 0 then "" else gap) + texts[i]
  {
    assert texts[..i + 1][..i] == texts[..i];
    if i == 0 {
      assert texts[..1] == [texts[0]];
    }
  }

  /** `XTicks`: the labels under the x axis and the width they are laid out in. */
  datatype XTicks = XTicks(labels: seq<string>, width: nat) {
    /** `XTicks::new`: the domain's start label, then its end label. */
    static function New(domain: Domain, width: nat, labelOf: real -> string): (t: XTicks)
      ensures t.labels == [labelOf(domain.Min()), labelOf(domain.Max())] && t.width == width
    {
      XTicks([labelOf(domain.Min()), labelOf(domain.Max())], width)
    }

    /**
     * When `XTicks::fmt` can run: at least two labels (it divides by
     * `len - 1`) that fit in the width (it subtracts their width from it in
     * unsigned arithmetic).
     */
    predicate Fits() {
      |labels| >= 2 && TotalWidth(labels) <= width
    }

    /** The blanks written before every label but the first. */
    function Spacing(): nat
      requires Fits()
    {
      (width - TotalWidth(labels)) / (|labels| - 1)
    }

    /** The blanks written after the last label. */
    function Fill(): (n: nat)
      requires Fits()
      ensures TotalWidth(labels) + Spacing() * (|labels| - 1) + n == width
    {
      var total := width - TotalWidth(labels);
      assert Spacing() * (|labels| - 1) <= total;
      total - Spacing() * (|labels| - 1)
    }

    /**
     * The line `XTicks::fmt` writes: exactly `width` characters, the first
     * label at column 0.
     */
    function Line(): (s: string)
      requires Fits()
      ensures |s| == width
      ensures |labels[0]| <= |s| && s[..|labels[0]|] == labels[0]
    {
      JoinShape(labels, Spaces(Spacing()));
      var spread := Join(labels, Spaces(Spacing()));
      assert (spread + Spaces(Fill()))[..|labels[0]|] == spread[..|labels[0]|];
      spread + Spaces(Fill())
    }

    /** `<XTicks as Display>::fmt`: each label after its spacing, then the fill. */
    method Fmt() returns (s: string)
      requires Fits()
      ensures s == Line()
    {
      var labelsWidth := TotalWidth(labels);
      var totalSpacing := width - labelsWidth;
      var spacing := totalSpacing / (|labels| - 1);
      s := "";
      for index := 0 to |labels|
        invariant s == Join(labels[..index], Spaces(spacing))
      {
        var space := if index == 0 then 0 else spacing;
        JoinNext(labels, index, Spaces(spacing));
        assert Spaces(space) == if index == 0 then "" else Spaces(spacing);
        s := s + Spaces(space) + labels[index];
      }
      assert labels[..|labels|] == labels;
      var fill := width - spacing * (|labels| - 1) - labelsWidth;
      s := s + Spaces(fill);
    }
  }

  /**
   * With the two labels `XTicks::new` makes, the start label sits at column
   * 0, the end label follows after `width` minus both labels' widths blanks,
   * and nothing is left to fill.
   */
  lemma XTicksOfDomain(domain: Domain, width: nat, labelOf: real -> string)
    requires |labelOf(domain.Min())| + |labelOf(domain.Max())| <= width
    ensures var t := XTicks.New(domain, width, labelOf);
      var lo, hi := labelOf(domain.Min()), labelOf(domain.Max());
      t.Fits() && t.Fill() == 0
      && t.Line() == lo + Spaces(width - |lo| - |hi|) + hi
  {
    var t := XTicks.New(domain, width, labelOf);
    var lo, hi := labelOf(domain.Min()), labelOf(domain.Max());
    assert t.labels[..1] == [lo] && [lo][..0] == [];
    assert TotalWidth([lo]) == |lo|;
    assert TotalWidth(t.labels) == |lo| + |hi|;
    assert Join(t.labels, Spaces(t.Spacing())) == lo + Spaces(width - |lo| - |hi|) + hi;
  }

  /** `YTicks`: labels beside the rows, each label attached to one row index. */
  datatype YTicks = YTicks(labels: seq<string>, rowIndexes: seq<nat>) {
    /** Every label has its row. */
    predicate Valid() {
      |labels| == |rowIndexes|
    }

    /**
     * `YTicks::new`: the codomain's end label on the top row, its start label
     * on the bottom row. It needs a row (`row_count - 1` is unsigned).
     */
    static function New(codomain: Domain, rowCount: nat, labelOf: real -> string): (t: YTicks)
      requires rowCount >= 1
      ensures t.Valid()
      ensures t.labels == [labelOf(codomain.Max()), labelOf(codomain.Min())]
      ensures t.rowIndexes == [0, rowCount - 1]
    {
      YTicks([labelOf(codomain.Max()), labelOf(codomain.Min())], [0, rowCount - 1])
    }

    /** `display_width`: the widest label's length, 0 without labels. */
    function DisplayWidth(): (w: nat)
      ensures forall i :: 0 <= i < |labels| ==> |labels[i]| <= w
      ensures labels == [] ==> w == 0
      ensures labels != [] ==> exists i :: 0 <= i < |labels| && |labels[i]| == w
    {
      Widest(labels)
    }

    /**
     * `get`: the label of the first entry attached to the row, or the empty
     * string when no entry is; never wider than the label column.
     */
    function Get(rowIndex: nat): (s: string)
      requires Valid()
      ensures rowIndex in rowIndexes ==>
        exists i :: 0 <= i < |labels| && rowIndexes[i] == rowIndex && s == labels[i]
                    && forall k :: 0 <= k < i ==> rowIndexes[k] != rowIndex
      ensures rowIndex !in rowIndexes ==> s == ""
      ensures |s| <= DisplayWidth()
    {
      match Position(rowIndexes, rowIndex)
      case Some(i) => labels[i]
      case None => ""
    }
  }

  /** The `max_by_key` of `display_width`, reduced to the length it is used for. */
  function Widest(labels: seq<string>): (w: nat)
    ensures forall i :: 0 <= i < |labels| ==> |labels[i]| <= w
    ensures labels == [] ==> w == 0
    ensures labels != [] ==> exists i :: 0 <= i < |labels| && |labels[i]| == w
  {
    if labels == [] then 0
    else
      var rest := Widest(labels[1..]);
      assert forall i :: 1 <= i < |labels| ==> labels[i] == labels[1..][i - 1];
      if |labels[0]| >= rest then |labels[0]| else rest
  }

  /** `Iterator::position`: the first index holding `v`. */
  function Position(xs: seq<nat>, v: nat): (r: Option<nat>)
    ensures r.Some? ==> r.value < |xs| && xs[r.value] == v && forall k :: 0 <= k < r.value ==> xs[k] != v
    ensures r.None? ==> forall k :: 0 <= k < |xs| ==> xs[k] != v
  {
    if xs == [] then None
    else if xs[0] == v then Some(0)
    else
      match Position(xs[1..], v)
      case Some(i) => Some(i + 1)
      case None => None
  }

  /**
   * The rows of `YTicks::new`: the end label on row 0, the start label on the
   * last row when there are two rows or more, and nothing on any other row.
   * With a single row both labels name row 0 and the first, the end label,
   * wins.
   */
  lemma YTicksRows(codomain: Domain, rowCount: nat, labelOf: real -> string, rowIndex: nat)
    requires rowCount >= 1
    ensures var t := YTicks.New(codomain, rowCount, labelOf);
      t.Get(rowIndex) ==
        if rowIndex == 0 then labelOf(codomain.Max())
        else if rowIndex == rowCount - 1 then labelOf(codomain.Min())
        else ""
  {
    var t := YTicks.New(codomain, rowCount, labelOf);
    var rows := t.rowIndexes;
    if rowIndex != 0 {
      assert rows[1..] == [rowCount - 1];
      if rowIndex == rowCount - 1 {
        assert Position(rows[1..], rowIndex) == Some(0);
      } else {
        assert Position(rows[1..][1..], rowIndex) == None;
        assert Position(rows[1..], rowIndex) == None;
      }
    }
  }
}
