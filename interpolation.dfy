/**
 * Piecewise-linear interpolation of sampled values, the stand-in for
 * numpy's `interp(x, xp, fp)` with its default clamping at both ends:
 * a query left of the first sample point gives the first value, one at or
 * right of the last sample point gives the last value, and a query between
 * two sample points lies on the straight line between their values.
 */
module Interpolation {
  import opened Matrices

  /** The sample points are strictly increasing (the usual time grid). */
  predicate StrictlyIncreasing(xp: seq<real>)
  {
    forall i, j :: 0 <= i < j < |xp| ==> xp[i] < xp[j]
  }

  /** The sample points never decrease (repeated points allowed). */
  predicate NonDecreasing(xp: seq<real>)
  {
    forall i, j :: 0 <= i < j < |xp| ==> xp[i] <= xp[j]
  }

  /** The value at `t` of the straight line through `(x0, f0)` and `(x1, f1)`: slope times offset plus `f0`. */
  function Line(t: real, x0: real, x1: real, f0: real, f1: real): (r: real)
    requires x0 != x1
    ensures t == x0 ==> r == f0
  {
    (f1 - f0) / (x1 - x0) * (t - x0) + f0
  }

  /** `a` plus the fraction `w` of the difference `d`. */
  function Step(a: real, w: real, d: real): real
  {
    a + w * d
  }

  /**
   * The interpolated value at `t` of the samples `fp` taken at `xp`. The
   * segment used is the one whose left end is the last sample point at or
   * before `t`, so among repeated sample points the last one wins: at a
   * sample point the value is that sample's, strictly inside a segment it
   * lies on the segment's line. Sample points are not checked for order,
   * as in numpy.
   */
  function InterpAt(t: real, xp: seq<real>, fp: seq<real>): (r: real)
    requires |xp| == |fp| > 0
    ensures NonDecreasing(xp) && t < xp[0] ==> r == fp[0]
    ensures NonDecreasing(xp) && t >= xp[|xp| - 1] ==> r == fp[|fp| - 1]
    decreases |xp|
  {
    if |xp| == 1 then fp[0]
    else if t >= xp[1] then
      assert NonDecreasing(xp) ==> NonDecreasing(xp[1..]);
      InterpAt(t, xp[1..], fp[1..])
    else if t <= xp[0] then fp[0]
    else Line(t, xp[0], xp[1], fp[0], fp[1])
  }

  /** Interpolation of every query in `ts` (numpy `interp` on an array). */
  function Interp(ts: seq<real>, xp: seq<real>, fp: seq<real>): (r: seq<real>)
    requires |xp| == |fp| > 0
    ensures |r| == |ts|
  {
    seq(|ts|, k requires 0 <= k < |ts| => InterpAt(ts[k], xp, fp))
  }

  /**
   * Between the sample points `xp[k] <= t < xp[k+1]` (on a non-decreasing
   * grid this pins `k` as the last sample point at or before `t`) the value
   * lies on the line through `(xp[k], fp[k])` and `(xp[k+1], fp[k+1])`.
   */
  lemma {:induction false} InterpAtSegment(t: real, xp: seq<real>, fp: seq<real>, k: nat)
    requires |xp| == |fp| && NonDecreasing(xp) && k + 1 < |xp| && xp[k] <= t < xp[k + 1]
    ensures InterpAt(t, xp, fp) == Line(t, xp[k], xp[k + 1], fp[k], fp[k + 1])
  {
    if k > 0 {
      assert xp[1] <= xp[k] <= t;
      assert NonDecreasing(xp[1..]);
      assert xp[1..][k - 1] == xp[k] && xp[1..][k] == xp[k + 1];
      InterpAtSegment(t, xp[1..], fp[1..], k - 1);
    }
  }

  /** At a sample point of a strictly increasing grid the interpolation returns that sample's value exactly. */
  lemma {:induction false} InterpAtGridPoint(xp: seq<real>, fp: seq<real>, k: nat)
    requires |xp| == |fp| && StrictlyIncreasing(xp) && k < |xp|
    ensures InterpAt(xp[k], xp, fp) == fp[k]
  {
    if k > 0 {
      assert xp[1] <= xp[k];
      InterpAtGridPoint(xp[1..], fp[1..], k - 1);
    } else if |xp| > 1 {
      assert xp[0] < xp[1];
    }
  }

  /** Interpolating shifted values gives the shifted interpolation. */
  lemma {:induction false} InterpAtPlus(t: real, xp: seq<real>, fp: seq<real>, d: real)
    requires |xp| == |fp| > 0
    ensures InterpAt(t, xp, Plus(fp, d)) == InterpAt(t, xp, fp) + d
    decreases |xp|
  {
    if |xp| == 1 {
    } else if t >= xp[1] {
      PlusTail(fp, d);
      InterpAtPlus(t, xp[1..], fp[1..], d);
    } else if t > xp[0] {
      assert Plus(fp, d)[0] == fp[0] + d && Plus(fp, d)[1] == fp[1] + d;
      LinePlus(t, xp[0], xp[1], fp[0], fp[1], d);
    }
  }

  /** Interpolating scaled values gives the scaled interpolation. */
  lemma {:induction false} InterpAtTimes(t: real, xp: seq<real>, fp: seq<real>, f: real)
    requires |xp| == |fp| > 0
    ensures InterpAt(t, xp, Times(fp, f)) == InterpAt(t, xp, fp) * f
    decreases |xp|
  {
    if |xp| > 1 && t >= xp[1] {
      TimesTail(fp, f);
      InterpAtTimes(t, xp[1..], fp[1..], f);
    } else {
      FirstSegmentTimes(t, xp, fp, f);
    }
  }

  /** The scaling property when `t` lies left of the second sample point (no recursion). */
  lemma FirstSegmentTimes(t: real, xp: seq<real>, fp: seq<real>, f: real)
    requires |xp| == |fp| > 0 && (|xp| == 1 || t < xp[1])
    ensures InterpAt(t, xp, Times(fp, f)) == InterpAt(t, xp, fp) * f
  {
    var g := Times(fp, f);
    if |xp| > 1 && t > xp[0] {
      assert g[0] == fp[0] * f && g[1] == fp[1] * f;
      LineTimes(t, xp[0], xp[1], fp[0], fp[1], f);
    }
  }

  /** The interpolated value never leaves a range that holds every sample value. */
  lemma {:induction false} InterpAtWithin(t: real, xp: seq<real>, fp: seq<real>, lo: real, hi: real)
    requires |xp| == |fp| > 0
    requires forall k :: 0 <= k < |fp| ==> lo <= fp[k] <= hi
    ensures lo <= InterpAt(t, xp, fp) <= hi
    decreases |xp|
  {
    if |xp| == 1 {
    } else if t >= xp[1] {
      InterpAtWithin(t, xp[1..], fp[1..], lo, hi);
    } else if t > xp[0] {
      assert lo <= fp[0] <= hi && lo <= fp[1] <= hi;
      LineWithin(t, xp[0], xp[1], fp[0], fp[1], lo, hi);
    }
  }

  /** Shifting both end values shifts the line by the same amount. */
  lemma LinePlus(t: real, x0: real, x1: real, f0: real, f1: real, d: real)
    requires x0 != x1
    ensures Line(t, x0, x1, f0 + d, f1 + d) == Line(t, x0, x1, f0, f1) + d
  {
    assert (f1 + d) - (f0 + d) == f1 - f0;
  }

  /** Scaling both end values scales the line by the same factor. */
  lemma LineTimes(t: real, x0: real, x1: real, f0: real, f1: real, f: real)
    requires x0 != x1
    ensures Line(t, x0, x1, f0 * f, f1 * f) == Line(t, x0, x1, f0, f1) * f
  {
    var w := (t - x0) / (x1 - x0);
    LineIsStep(t, x0, x1, f0, f1);
    LineIsStep(t, x0, x1, f0 * f, f1 * f);
    assert Step(f0 * f, w, f1 * f - f0 * f) == Step(f0, w, f1 - f0) * f;
  }

  /** The line is a step from `f0` by the fraction `(t - x0) / (x1 - x0)` of the difference `f1 - f0`. */
  lemma LineIsStep(t: real, x0: real, x1: real, f0: real, f1: real)
    requires x0 != x1
    ensures Line(t, x0, x1, f0, f1) == Step(f0, (t - x0) / (x1 - x0), f1 - f0)
  {
    var w := (t - x0) / (x1 - x0);
    assert (f1 - f0) / (x1 - x0) * (t - x0) == w * (f1 - f0);
  }

  /** Strictly inside a segment the line stays within any range that holds both end values. */
  lemma LineWithin(t: real, x0: real, x1: real, f0: real, f1: real, lo: real, hi: real)
    requires x0 < t < x1 && lo <= f0 <= hi && lo <= f1 <= hi
    ensures lo <= Line(t, x0, x1, f0, f1) <= hi
  {
    var w := SegmentWeight(t, x0, x1);
    LineIsStep(t, x0, x1, f0, f1);
    StepBetween(f0, w, f1 - f0);
  }

  /** Strictly inside a segment the fraction of the way along it lies strictly between 0 and 1. */
  lemma SegmentWeight(t: real, x0: real, x1: real) returns (w: real)
    requires x0 < t < x1
    ensures w == (t - x0) / (x1 - x0) && 0.0 < w < 1.0
  {
    var span := x1 - x0;
    w := (t - x0) / span;
    assert w * span == t - x0;
    assert 0.0 < w by {
      if w <= 0.0 { MultiplyMonotone(span, w, 0.0); }
    }
    assert w < 1.0 by {
      if w >= 1.0 { MultiplyMonotone(span, 1.0, w); }
    }
  }

  /** A step by a fraction in [0, 1] of `d` ends between `a` and `a + d`. */
  lemma StepBetween(a: real, w: real, d: real)
    requires 0.0 <= w <= 1.0
    ensures d >= 0.0 ==> a <= Step(a, w, d) <= a + d
    ensures d < 0.0 ==> a + d <= Step(a, w, d) <= a
  {
    if d >= 0.0 {
      MultiplyMonotone(w, 0.0, d);
      MultiplyBelowOne(w, d);
    } else {
      MultiplyMonotone(w, d, 0.0);
      MultiplyBelowOne(w, -d);
    }
  }

  /** A fraction in [0, 1] of a non-negative amount is at most that amount. */
  lemma MultiplyBelowOne(w: real, d: real)
    requires 0.0 <= w <= 1.0 && d >= 0.0
    ensures w * d <= d
  {
    MultiplyMonotone(d, w, 1.0);
  }

  /** Multiplying by a non-negative factor keeps the order. */
  lemma MultiplyMonotone(a: real, b: real, c: real)
    requires a >= 0.0 && b <= c
    ensures a * b <= a * c
  {
    assert a * c - a * b == a * (c - b);
  }
}
