/**
 * The numeric interval of one axis (`Domain`) and its evenly spaced sampler
 * (`DomainIterator`), src/lib.rs. An `f64` is modelled as a `real`, so the
 * sampler's arithmetic is exact.
 */
module Domains {
  import opened Wrappers

  function Abs(x: real): real { if x < 0.0 then -x else x }

  /** `Domain(start..end)`. A reversed interval (`start > end`) is legal. */
  datatype Domain = Domain(start: real, end: real) {
    /** The configured start, whatever the order of the bounds. */
    function Min(): real { start }

    /** The configured end, whatever the order of the bounds. */
    function Max(): real { end }

    /** The length of the interval, never negative. */
    function Range(): (r: real)
      ensures r >= 0.0
      ensures Min() + r == Max() || Max() + r == Min()
      ensures r == 0.0 <==> Min() == Max()
    {
      Abs(end - start)
    }

    /** The values `Iter(steps)` yields, in order: steps of `Range() / steps` from `start`, below `end`. */
    function Sample(steps: nat): (s: seq<real>)
      requires steps >= 1
      ensures start >= end ==> s == []
    {
      Samples(start, end, Range() / steps as real)
    }

    /** `Domain::iter`: a fresh sampler stepping by `Range() / steps`. */
    method Iter(steps: nat) returns (it: DomainIterator)
      requires steps >= 1
      ensures fresh(it) && it.Valid()
      ensures it.domain == this && it.Remaining() == Sample(steps)
    {
      it := new DomainIterator(this, Range() / steps as real);
    }
  }

  /**
   * What a sampler whose running value is `from` still yields: nothing once
   * `from` has reached `end`, otherwise `from` followed by what it yields
   * from `from + step`.
   */
  function Samples(from: real, end: real, step: real): seq<real>
    requires from < end ==> step > 0.0
    decreases StepsLeft(from, end, step)
  {
    if from >= end then []
    else
      StepShrinks(from, end, step);
      [from] + Samples(from + step, end, step)
  }

  /** A termination measure for `Samples`: how many more steps fit below `end`. */
  function StepsLeft(from: real, end: real, step: real): nat
    requires from < end ==> step > 0.0
  {
    if from < end then ((end - from) / step).Floor + 1 else 0
  }

  lemma StepShrinks(from: real, end: real, step: real)
    requires from < end && step > 0.0
    ensures StepsLeft(from + step, end, step) < StepsLeft(from, end, step)
  {
    if from + step < end {
      var q := (end - from) / step;
      var q' := (end - (from + step)) / step;
      assert q * step == end - from;
      assert q' * step == end - (from + step);
      assert (q - q' - 1.0) * step == 0.0;
      ProductZero(q - q' - 1.0, step);
    }
  }

  lemma ProductZero(x: real, y: real)
    requires y > 0.0 && x * y == 0.0
    ensures x == 0.0
  {
  }

  /**
   * The yielded values are `from + i * step`, each below `end`, and no
   * further step would still be below `end`.
   */
  lemma {:induction false} SamplesAt(from: real, end: real, step: real)
    requires from < end ==> step > 0.0
    ensures var s := Samples(from, end, step);
      (forall i :: 0 <= i < |s| ==> s[i] == from + i as real * step && s[i] < end)
      && from + |s| as real * step >= end
    decreases StepsLeft(from, end, step)
  {
    if from < end {
      StepShrinks(from, end, step);
      SamplesAt(from + step, end, step);
      var s := Samples(from, end, step);
      var t := Samples(from + step, end, step);
      assert s == [from] + t;
      forall i | 0 < i < |s|
        ensures s[i] == from + i as real * step
      {
        assert s[i] == t[i - 1] == from + step + (i - 1) as real * step;
      }
      assert from + step + |t| as real * step >= end;
      assert |s| as real * step == step + |t| as real * step;
    }
  }

  /**
   * The first yielded value is `start`, every yielded value is below `end`,
   * and successive values differ by `Range() / steps`.
   */
  lemma SampleShape(d: Domain, steps: nat)
    requires steps >= 1
    ensures var s := d.Sample(steps);
      (s != [] ==> s[0] == d.start)
      && (forall i :: 0 <= i < |s| ==> s[i] < d.end)
      && (forall i :: 0 < i < |s| ==> s[i] - s[i - 1] == d.Range() / steps as real)
  {
    var step := d.Range() / steps as real;
    SamplesAt(d.start, d.end, step);
    var s := d.Sample(steps);
    forall i | 0 < i < |s|
      ensures s[i] - s[i - 1] == step
    {
      assert s[i] == d.start + i as real * step;
      assert s[i - 1] == d.start + (i - 1) as real * step;
    }
  }

  /**
   * In exact arithmetic an ordered domain yields exactly `steps` values,
   * `start + k * (end - start) / steps` for `k < steps`.
   */
  lemma SampleExact(d: Domain, steps: nat)
    requires d.start < d.end && steps >= 1
    ensures var s := d.Sample(steps);
      |s| == steps
      && forall k :: 0 <= k < steps ==> s[k] == d.start + k as real * (d.end - d.start) / steps as real
  {
    SampleCount(d, steps);
    var s := d.Sample(steps);
    forall k | 0 <= k < steps
      ensures s[k] == d.start + k as real * (d.end - d.start) / steps as real
    {
      SampleElement(d, steps, k);
    }
  }

  lemma SampleCount(d: Domain, steps: nat)
    requires d.start < d.end && steps >= 1
    ensures |d.Sample(steps)| == steps
  {
    var n := steps as real;
    var step := d.Range() / n;
    StepTimesSteps(d, steps);
    SamplesAt(d.start, d.end, step);
    var s := d.Sample(steps);
    if |s| < steps {
      ScaleStrict(|s| as real, n, step);
    } else if |s| > 0 {
      var last := |s| - 1;
      assert s[last] == d.start + last as real * step < d.end;
      BelowScale(last as real, n, step, d.end - d.start);
    }
  }

  lemma SampleElement(d: Domain, steps: nat, k: nat)
    requires d.start < d.end && steps >= 1
    requires k < |d.Sample(steps)|
    ensures d.Sample(steps)[k] == d.start + k as real * (d.end - d.start) / steps as real
  {
    var n := steps as real;
    SamplesAt(d.start, d.end, d.Range() / n);
    assert d.Range() == d.end - d.start;
    ScaleDiv(k as real, d.end - d.start, n);
  }

  lemma StepTimesSteps(d: Domain, steps: nat)
    requires d.start < d.end && steps >= 1
    ensures d.Range() == d.end - d.start
    ensures (d.Range() / steps as real) > 0.0
    ensures (d.Range() / steps as real) * steps as real == d.end - d.start
  {
  }

  lemma ScaleStrict(a: real, b: real, c: real)
    requires a < b && c > 0.0
    ensures a * c < b * c
  {
  }

  lemma ScaleCancel(a: real, b: real, c: real)
    requires c > 0.0 && a * c < c * b
    ensures a < b
  {
  }

  lemma BelowScale(a: real, b: real, c: real, x: real)
    requires c > 0.0 && c * b == x && a * c < x
    ensures a < b
  {
    ScaleCancel(a, b, c);
  }

  lemma ScaleDiv(k: real, x: real, n: real)
    requires n > 0.0
    ensures k * (x / n) == k * x / n
  {
  }

  /**
   * The documented ranges of `Domain(-10.0..10.0)` and `Domain(8.0..-8.0)`;
   * the reversed one keeps its start as `min` and its end as `max`.
   */
  lemma RangeExamples()
    ensures Domain(-10.0, 10.0).Range() == 20.0
    ensures Domain(8.0, -8.0).Range() == 16.0
    ensures Domain(8.0, -8.0).Min() == 8.0 && Domain(8.0, -8.0).Max() == -8.0
  {
  }

  /**
   * `DomainIterator`: the running value `current` steps by `stepBy` and is
   * yielded while it is below `domain.end`.
   */
  class DomainIterator {
    var current: real
    const domain: Domain
    const stepBy: real

    /** A running value below the end only ever moves forward. */
    ghost predicate Valid()
      reads this
    {
      current < domain.end ==> stepBy > 0.0
    }

    /** The values the iterator has yet to yield. */
    ghost function Remaining(): seq<real>
      reads this
      requires Valid()
    {
      Samples(current, domain.end, stepBy)
    }

    constructor (domain: Domain, stepBy: real)
      requires domain.start < domain.end ==> stepBy > 0.0
      ensures Valid()
      ensures this.domain == domain && this.stepBy == stepBy && current == domain.start
      ensures Remaining() == Samples(domain.start, domain.end, stepBy)
    {
      current := domain.start;
      this.domain := domain;
      this.stepBy := stepBy;
    }

    /** `Iterator::next`: yields the running value and steps, or `None` once `end` is reached. */
    method Next() returns (r: Option<real>)
      requires Valid()
      modifies this
      ensures Valid()
      ensures old(Remaining()) == [] ==> r == None && Remaining() == []
      ensures old(Remaining()) != [] ==>
        r == Some(old(Remaining())[0]) && Remaining() == old(Remaining())[1..]
    {
      if current >= domain.end {
        return None;
      }
      var result := current;
      current := current + stepBy;
      return Some(result);
    }
  }
}
