/**
 * The time axis of a track: consecutive differences (numpy `diff`), their
 * mean (numpy `mean`) and the estimated time step built from the two.
 */
module Timeline {
  import opened Wrappers

  /** Consecutive differences `s[i+1] - s[i]`; empty for fewer than two samples. */
  function Diff(s: seq<real>): (d: seq<real>)
    ensures |d| == if |s| == 0 then 0 else |s| - 1
    ensures forall i :: 0 <= i < |d| ==> d[i] == s[i + 1] - s[i]
  {
    if |s| < 2 then [] else [s[1] - s[0]] + Diff(s[1..])
  }

  /** The sum of all cells. */
  function Sum(s: seq<real>): (total: real)
  {
    if s == [] then 0.0 else s[0] + Sum(s[1..])
  }

  /**
   * The arithmetic mean: defined exactly for a non-empty array, and then it
   * times the number of cells is the sum. `None` stands for the NaN numpy
   * returns for an empty array.
   */
  function Mean(s: seq<real>): (mean: Option<real>)
    ensures mean.Some? <==> s != []
    ensures mean.Some? ==> mean.value * (|s| as real) == Sum(s)
  {
    if s == [] then None else Some(Sum(s) / |s| as real)
  }

  /**
   * The estimated time step, the mean of the consecutive differences of
   * `time`: with at least two samples it is the total span divided by the
   * number of intervals; with fewer it is undefined (NaN).
   */
  function Timestep(time: seq<real>): (step: Option<real>)
    ensures |time| >= 2 ==> step == Some((time[|time| - 1] - time[0]) / (|time| - 1) as real)
    ensures |time| < 2 ==> step == None
  {
    if |time| >= 2 then SumOfDiff(time); Mean(Diff(time)) else Mean(Diff(time))
  }

  /** The differences telescope: their sum is the total span of the samples. */
  lemma {:induction false} SumOfDiff(s: seq<real>)
    requires |s| >= 1
    ensures Sum(Diff(s)) == s[|s| - 1] - s[0]
  {
    if |s| >= 2 {
      SumOfDiff(s[1..]);
      assert Diff(s) == [s[1] - s[0]] + Diff(s[1..]);
      assert Diff(s)[1..] == Diff(s[1..]);
    }
  }

  /** On a uniform grid `t0, t0 + h, t0 + 2h, ...` the time step is exactly `h`. */
  lemma UniformGridTimestep(time: seq<real>, t0: real, h: real)
    requires |time| >= 2
    requires forall i :: 0 <= i < |time| ==> time[i] == t0 + (i as real) * h
    ensures Timestep(time) == Some(h)
  {
    var n := (|time| - 1) as real;
    var first, last := time[0], time[|time| - 1];
    assert first == t0 + 0.0 * h;
    assert last == t0 + n * h;
    SpanOverCount(first, last, n, h);
  }

  /** The smallest cell (numpy `amin`), which occurs in `s`. */
  function Minimum(s: seq<real>): (least: real)
    requires s != []
    ensures least in s
    ensures forall k :: 0 <= k < |s| ==> least <= s[k]
  {
    if |s| == 1 then s[0]
    else
      var rest := Minimum(s[1..]);
      if s[0] <= rest then s[0] else rest
  }

  /** The largest cell (numpy `amax`), which occurs in `s`. */
  function Maximum(s: seq<real>): (greatest: real)
    requires s != []
    ensures greatest in s
    ensures forall k :: 0 <= k < |s| ==> s[k] <= greatest
  {
    if |s| == 1 then s[0]
    else
      var rest := Maximum(s[1..]);
      if s[0] >= rest then s[0] else rest
  }

  /** A span of `n` steps of `h`, divided by `n`, is `h`. */
  lemma SpanOverCount(first: real, last: real, n: real, h: real)
    requires n > 0.0 && last - first == n * h
    ensures (last - first) / n == h
  {
  }
}
