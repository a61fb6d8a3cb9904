/**
 * The value of an initialised track: the time vector, the x and y matrices
 * (one row per time sample, one column per object) and the object count,
 * with the value-level effect of each operation that changes them.
 */
module TrackModel {
  import opened Wrappers
  import opened Matrices
  import opened Interpolation

  datatype TrackData = TrackData(time: seq<real>, x: Matrix, y: Matrix, nObjects: nat)

  /** Both coordinate matrices have one row per time sample and one column per object. */
  predicate WellShaped(t: TrackData)
  {
    IsMatrix(t.x, |t.time|, t.nObjects) && IsMatrix(t.y, |t.time|, t.nObjects)
  }

  /**
   * Every x shifted by `dx` and every y by `dy`; the time vector, the object
   * count and the shape stay as they were.
   */
  function Moved(t: TrackData, dx: real, dy: real): (r: TrackData)
    ensures r.time == t.time && r.nObjects == t.nObjects
    ensures WellShaped(t) ==> WellShaped(r)
    ensures WellShaped(t) ==> forall i, j :: 0 <= i < |t.time| && 0 <= j < t.nObjects ==>
      r.x[i][j] == t.x[i][j] + dx && r.y[i][j] == t.y[i][j] + dy
  {
    t.(x := AddToAll(t.x, dx), y := AddToAll(t.y, dy))
  }

  /**
   * Every x and every y multiplied by `factor`; the time vector, the object
   * count and the shape stay as they were.
   */
  function Scaled(t: TrackData, factor: real): (r: TrackData)
    ensures r.time == t.time && r.nObjects == t.nObjects
    ensures WellShaped(t) ==> WellShaped(r)
    ensures WellShaped(t) ==> forall i, j :: 0 <= i < |t.time| && 0 <= j < t.nObjects ==>
      r.x[i][j] == t.x[i][j] * factor && r.y[i][j] == t.y[i][j] * factor
  {
    t.(x := MultiplyAll(t.x, factor), y := MultiplyAll(t.y, factor))
  }

  /**
   * `m` re-sampled onto `newtime`: one row per new time, and column `j`
   * interpolated from column `j` of `m` against the old time grid.
   */
  function Resample(newtime: seq<real>, time: seq<real>, m: Matrix, n: nat): (r: Matrix)
    requires IsMatrix(m, |time|, n)
    requires n == 0 || |time| > 0
  {
    seq(|newtime|, r requires 0 <= r < |newtime| =>
      seq(n, j requires 0 <= j < n => InterpAt(newtime[r], time, Column(m, j))))
  }

  /**
   * Re-sampling is possible unless there are objects to interpolate and no
   * old sample points (numpy refuses to interpolate from an empty grid).
   */
  predicate CanInterpolate(s: Option<TrackData>)
  {
    s.None? || s.value.nObjects == 0 || |s.value.time| > 0
  }

  /**
   * The track after re-sampling onto `newtime`, from either an uninitialised
   * track (`None`, which has no objects) or an initialised one; `None` when
   * interpolation is refused.
   */
  function TimeInterpolated(s: Option<TrackData>, newtime: seq<real>): (r: Option<TrackData>)
    requires s.Some? ==> WellShaped(s.value)
    ensures r.Some? <==> CanInterpolate(s)
    ensures r.Some? ==> WellShaped(r.value) && r.value.time == newtime
    ensures r.Some? ==> r.value.nObjects == (if s.None? then 0 else s.value.nObjects)
  {
    var n := if s.None? then 0 else s.value.nObjects;
    if !CanInterpolate(s) then None
    else if n == 0 then
      Some(TrackData(newtime, seq(|newtime|, _ => []), seq(|newtime|, _ => []), 0))
    else
      var t := s.value;
      Some(TrackData(newtime, Resample(newtime, t.time, t.x, n), Resample(newtime, t.time, t.y, n), n))
  }

  /** Column `j` of each re-sampled matrix is the old column `j` interpolated at every new time. */
  lemma ResampleColumn(newtime: seq<real>, t: TrackData, j: nat)
    requires WellShaped(t) && |t.time| > 0 && j < t.nObjects
    ensures var s := TimeInterpolated(Some(t), newtime).value;
      && Column(s.x, j) == Interp(newtime, t.time, Column(t.x, j))
      && Column(s.y, j) == Interp(newtime, t.time, Column(t.y, j))
  {
  }

  /** Moving back by the opposite difference restores the track. */
  lemma MoveInverse(t: TrackData, dx: real, dy: real)
    ensures Moved(Moved(t, dx, dy), -dx, -dy) == t
  {
    AddToAllInverse(t.x, dx);
    AddToAllInverse(t.y, dy);
  }

  /** Two moves are one move by the summed difference. */
  lemma MoveComposes(t: TrackData, dx: real, dy: real, ex: real, ey: real)
    ensures Moved(Moved(t, dx, dy), ex, ey) == Moved(t, dx + ex, dy + ey)
  {
    AddToAllComposes(t.x, dx, ex);
    AddToAllComposes(t.y, dy, ey);
  }

  /** Scaling by a non-zero factor and then by its reciprocal restores the track. */
  lemma ScaleInverse(t: TrackData, factor: real)
    requires factor != 0.0
    ensures Scaled(Scaled(t, factor), 1.0 / factor) == t
  {
    MultiplyAllInverse(t.x, factor);
    MultiplyAllInverse(t.y, factor);
  }

  /** Scaling a moved track equals moving the scaled track by the scaled difference. */
  lemma ScaleAfterMove(t: TrackData, dx: real, dy: real, factor: real)
    ensures Scaled(Moved(t, dx, dy), factor) == Moved(Scaled(t, factor), dx * factor, dy * factor)
  {
    MultiplyAllAfterAddToAll(t.x, dx, factor);
    MultiplyAllAfterAddToAll(t.y, dy, factor);
  }

  /** Re-sampling onto the track's own strictly increasing grid changes nothing. */
  lemma TimeInterpolateOwnGrid(t: TrackData)
    requires WellShaped(t) && CanInterpolate(Some(t)) && StrictlyIncreasing(t.time)
    ensures TimeInterpolated(Some(t), t.time) == Some(t)
  {
    var n := t.nObjects;
    if n > 0 {
      ResampleOwnGrid(t.time, t.x, n);
      ResampleOwnGrid(t.time, t.y, n);
    } else {
      assert t.x == seq(|t.time|, _ => []);
      assert t.y == seq(|t.time|, _ => []);
    }
  }

  lemma ResampleOwnGrid(time: seq<real>, m: Matrix, n: nat)
    requires IsMatrix(m, |time|, n) && |time| > 0 && StrictlyIncreasing(time)
    ensures Resample(time, time, m, n) == m
  {
    forall r | 0 <= r < |time|
      ensures Resample(time, time, m, n)[r] == m[r]
    {
      forall j | 0 <= j < n
        ensures Resample(time, time, m, n)[r][j] == m[r][j]
      {
        InterpAtGridPoint(time, Column(m, j), r);
      }
    }
  }

  /** Re-sampling a moved track equals moving the re-sampled track. */
  lemma TimeInterpolateAfterMove(t: TrackData, newtime: seq<real>, dx: real, dy: real)
    requires WellShaped(t) && CanInterpolate(Some(t))
    ensures TimeInterpolated(Some(Moved(t, dx, dy)), newtime) == Some(Moved(TimeInterpolated(Some(t), newtime).value, dx, dy))
  {
    var n := t.nObjects;
    if n > 0 {
      ResampleAfterAdd(newtime, t.time, t.x, n, dx);
      ResampleAfterAdd(newtime, t.time, t.y, n, dy);
    } else {
      var empty: Matrix := seq(|newtime|, _ => []);
      assert AddToAll(empty, dx) == empty && AddToAll(empty, dy) == empty;
    }
  }

  lemma ResampleAfterAdd(newtime: seq<real>, time: seq<real>, m: Matrix, n: nat, d: real)
    requires IsMatrix(m, |time|, n) && |time| > 0
    ensures IsMatrix(AddToAll(m, d), |time|, n)
    ensures Resample(newtime, time, AddToAll(m, d), n) == AddToAll(Resample(newtime, time, m, n), d)
  {
    AddToAllCells(m, d, |time|, n);
    forall r | 0 <= r < |newtime|
      ensures Resample(newtime, time, AddToAll(m, d), n)[r] == AddToAll(Resample(newtime, time, m, n), d)[r]
    {
      forall j | 0 <= j < n
        ensures Resample(newtime, time, AddToAll(m, d), n)[r][j] == AddToAll(Resample(newtime, time, m, n), d)[r][j]
      {
        ColumnOfAddToAll(m, d, |time|, n, j);
        InterpAtPlus(newtime[r], time, Column(m, j), d);
      }
    }
  }

  /** Re-sampling a scaled track equals scaling the re-sampled track. */
  lemma TimeInterpolateAfterScale(t: TrackData, newtime: seq<real>, factor: real)
    requires WellShaped(t) && CanInterpolate(Some(t))
    ensures TimeInterpolated(Some(Scaled(t, factor)), newtime) == Some(Scaled(TimeInterpolated(Some(t), newtime).value, factor))
  {
    var n := t.nObjects;
    if n > 0 {
      ResampleAfterMultiply(newtime, t.time, t.x, n, factor);
      ResampleAfterMultiply(newtime, t.time, t.y, n, factor);
    } else {
      var empty: Matrix := seq(|newtime|, _ => []);
      assert MultiplyAll(empty, factor) == empty;
    }
  }

  lemma ResampleAfterMultiply(newtime: seq<real>, time: seq<real>, m: Matrix, n: nat, f: real)
    requires IsMatrix(m, |time|, n) && |time| > 0
    ensures IsMatrix(MultiplyAll(m, f), |time|, n)
    ensures Resample(newtime, time, MultiplyAll(m, f), n) == MultiplyAll(Resample(newtime, time, m, n), f)
  {
    MultiplyAllCells(m, f, |time|, n);
    forall r | 0 <= r < |newtime|
      ensures Resample(newtime, time, MultiplyAll(m, f), n)[r] == MultiplyAll(Resample(newtime, time, m, n), f)[r]
    {
      forall j | 0 <= j < n
        ensures Resample(newtime, time, MultiplyAll(m, f), n)[r][j] == MultiplyAll(Resample(newtime, time, m, n), f)[r][j]
      {
        ColumnOfMultiplyAll(m, f, |time|, n, j);
        InterpAtTimes(newtime[r], time, Column(m, j), f);
      }
    }
  }

  /**
   * Each re-sampled column depends only on the same object's old column and
   * the old time grid: two tracks that agree on those agree on the result.
   */
  lemma TimeInterpolateColumnLocal(t: TrackData, u: TrackData, newtime: seq<real>, j: nat)
    requires WellShaped(t) && WellShaped(u) && CanInterpolate(Some(t)) && CanInterpolate(Some(u))
    requires t.time == u.time && j < t.nObjects && j < u.nObjects
    requires Column(t.x, j) == Column(u.x, j) && Column(t.y, j) == Column(u.y, j)
    ensures Column(TimeInterpolated(Some(t), newtime).value.x, j) == Column(TimeInterpolated(Some(u), newtime).value.x, j)
    ensures Column(TimeInterpolated(Some(t), newtime).value.y, j) == Column(TimeInterpolated(Some(u), newtime).value.y, j)
  {
  }

  /**
   * Re-sampling never takes an object outside a box that held it at every
   * old time sample (an arena stays respected).
   */
  lemma TimeInterpolateStaysInBox(t: TrackData, newtime: seq<real>, xlo: real, xhi: real, ylo: real, yhi: real)
    requires WellShaped(t) && CanInterpolate(Some(t))
    requires forall r, j :: 0 <= r < |t.time| && 0 <= j < t.nObjects ==> xlo <= t.x[r][j] <= xhi && ylo <= t.y[r][j] <= yhi
    ensures var s := TimeInterpolated(Some(t), newtime).value;
      forall r, j :: 0 <= r < |newtime| && 0 <= j < t.nObjects ==> xlo <= s.x[r][j] <= xhi && ylo <= s.y[r][j] <= yhi
  {
    var s := TimeInterpolated(Some(t), newtime).value;
    forall r, j | 0 <= r < |newtime| && 0 <= j < t.nObjects
      ensures xlo <= s.x[r][j] <= xhi && ylo <= s.y[r][j] <= yhi
    {
      InterpAtWithin(newtime[r], t.time, Column(t.x, j), xlo, xhi);
      InterpAtWithin(newtime[r], t.time, Column(t.y, j), ylo, yhi);
    }
  }
}
