/**
 * The trajectory container `Track`. Its coordinate matrices are numpy
 * arrays updated in place, so they are arrays here; a field the source
 * leaves as `None` is a null reference.
 */
module Tracks {
  import opened Wrappers
  import opened Matrices
  import opened Interpolation
  import opened TrackModel
  import Layout
  import Timeline

  /** The contents of a 2-D array, row by row. */
  function Cells(a: array2<real>): (m: Matrix)
    reads a
    ensures IsMatrix(m, a.Length0, a.Length1)
    ensures forall i, j :: 0 <= i < a.Length0 && 0 <= j < a.Length1 ==> m[i][j] == a[i, j]
  {
    seq(a.Length0, i requires 0 <= i < a.Length0 reads a =>
      seq(a.Length1, j requires 0 <= j < a.Length1 reads a => a[i, j]))
  }

  /** An array holds a matrix when the shapes and all cells agree. */
  lemma CellsAre(a: array2<real>, m: Matrix)
    requires IsMatrix(m, a.Length0, a.Length1)
    requires forall i, j :: 0 <= i < a.Length0 && 0 <= j < a.Length1 ==> a[i, j] == m[i][j]
    ensures Cells(a) == m
  {
    forall i | 0 <= i < a.Length0
      ensures Cells(a)[i] == m[i]
    {
    }
  }

  /** A fresh array holding every second column of `m` from column `start` on (numpy `m[:, start::2]`). */
  method SliceColumns(m: Matrix, ncol: nat, start: nat) returns (a: array2<real>)
    requires IsMatrix(m, |m|, ncol) && ncol % 2 == 1 && 1 <= start <= 2
    ensures fresh(a) && a.Length0 == |m| && a.Length1 == (ncol - 1) / 2
    ensures Cells(a) == seq(|m|, i requires 0 <= i < |m| => Layout.Strided(m[i], start))
  {
    var rows, n := |m|, (ncol - 1) / 2;
    a := new real[rows, n];
    forall i, j | 0 <= i < rows && 0 <= j < n {
      a[i, j] := m[i][start + 2 * j];
    }
    ghost var sliced := seq(|m|, i requires 0 <= i < |m| => Layout.Strided(m[i], start));
    forall i | 0 <= i < rows
      ensures |sliced[i]| == n && forall j :: 0 <= j < n ==> sliced[i][j] == m[i][start + 2 * j]
    {
      Layout.StridedOfRow(m[i], n, start);
    }
    CellsAre(a, sliced);
  }

  /** Adds `d` to every cell of `a`, in place (numpy `a += d`). */
  method AddToArray(a: array2<real>, d: real)
    modifies a
    ensures Cells(a) == AddToAll(old(Cells(a)), d)
    ensures forall i, j :: 0 <= i < a.Length0 && 0 <= j < a.Length1 ==> a[i, j] == old(a[i, j]) + d
  {
    ghost var before := Cells(a);
    forall i, j | 0 <= i < a.Length0 && 0 <= j < a.Length1 {
      a[i, j] := a[i, j] + d;
    }
    AddToAllCells(before, d, a.Length0, a.Length1);
    CellsAre(a, AddToAll(before, d));
  }

  /** Multiplies every cell of `a` by `f`, in place (numpy `a *= f`). */
  method MultiplyArray(a: array2<real>, f: real)
    modifies a
    ensures Cells(a) == MultiplyAll(old(Cells(a)), f)
    ensures forall i, j :: 0 <= i < a.Length0 && 0 <= j < a.Length1 ==> a[i, j] == old(a[i, j]) * f
  {
    ghost var before := Cells(a);
    forall i, j | 0 <= i < a.Length0 && 0 <= j < a.Length1 {
      a[i, j] := a[i, j] * f;
    }
    MultiplyAllCells(before, f, a.Length0, a.Length1);
    CellsAre(a, MultiplyAll(before, f));
  }

  /** Writes `column` into column `index` of `a` (numpy `a[:, index] = column`). */
  method SetColumn(a: array2<real>, index: nat, column: seq<real>)
    requires index < a.Length1 && |column| == a.Length0
    modifies a
    ensures forall r, j :: 0 <= r < a.Length0 && 0 <= j < a.Length1 ==>
      a[r, j] == if j == index then column[r] else old(a[r, j])
  {
    forall r | 0 <= r < a.Length0 {
      a[r, index] := column[r];
    }
  }

  /**
   * What `summary` reports: the object count with the earliest and latest
   * time, or that the track is not initialised, or the failure of numpy's
   * `amin` on an empty time vector.
   */
  datatype Summary = Initialized(nObjects: nat, earliest: real, latest: real) | NotInitialized | EmptyTimeError

  class Track {
    var time: array?<real>
    var x: array2?<real>
    var y: array2?<real>
    var nObjects: nat

    /** Either nothing is set, or all three arrays are, one row per time sample and one column per object. */
    ghost predicate Valid()
      reads this
    {
      if time == null then x == null && y == null && nObjects == 0
      else
        && x != null && y != null && x != y
        && x.Length0 == time.Length && y.Length0 == time.Length
        && x.Length1 == nObjects && y.Length1 == nObjects
    }

    /** The track's value, `None` while it is not initialised. */
    function Contents(): (c: Option<TrackData>)
      reads this, time, x, y
      requires Valid()
      ensures c.Some? <==> time != null
      ensures c.Some? ==> WellShaped(c.value) && |c.value.time| == time.Length && c.value.nObjects == nObjects
    {
      if time == null then None else Some(TrackData(time[..], Cells(x), Cells(y), nObjects))
    }

    /** A new track holds no data and no objects. */
    constructor ()
      ensures Valid() && Contents() == None
      ensures time == null && x == null && y == null && nObjects == 0
    {
      time, x, y := null, null, null;
      nObjects := 0;
    }

    /**
     * Reads the classic layout from a matrix of `ncol` columns: with an odd
     * count the fields are replaced by the split columns, with an even count
     * nothing changes.
     */
    method LoadFromCsvV0(m: Matrix, ncol: nat)
      requires Valid() && IsMatrix(m, |m|, ncol)
      modifies this
      ensures Valid()
      ensures ncol % 2 == 1 ==> Contents() == Layout.LoadLayout(m, ncol) && fresh(time) && fresh(x) && fresh(y)
      ensures ncol % 2 == 0 ==> unchanged(this)
    {
      if ncol % 2 == 1 {
        var rows := |m|;
        var newTime := new real[rows](i requires 0 <= i < rows => m[i][0]);
        var newX := SliceColumns(m, ncol, 1);
        var newY := SliceColumns(m, ncol, 2);
        time, x, y := newTime, newX, newY;
        nObjects := x.Length1;
        ghost var loaded := Layout.LoadLayout(m, ncol).value;
        assert time[..] == loaded.time;
        assert Contents() == Some(TrackData(loaded.time, loaded.x, loaded.y, loaded.nObjects));
      }
    }

    /** The matrix in the classic layout; loading it gives this track back. */
    function SaveToCsvV0(): (m: Matrix)
      reads this, time, x, y
      requires Valid() && time != null
      ensures IsMatrix(m, time.Length, 2 * nObjects + 1)
      ensures Layout.LoadLayout(m, 2 * nObjects + 1) == Contents()
    {
      var t := Contents().value;
      Layout.LoadAfterSave(t);
      Layout.SaveLayout(t)
    }

    /** Shifts every x by `dx` and every y by `dy`, in place. */
    method MoveXY(dx: real, dy: real)
      requires Valid() && time != null
      modifies x, y
      ensures Valid()
      ensures Contents() == Some(Moved(old(Contents()).value, dx, dy))
      ensures forall i, j :: 0 <= i < x.Length0 && 0 <= j < x.Length1 ==> x[i, j] == old(x[i, j]) + dx
      ensures forall i, j :: 0 <= i < y.Length0 && 0 <= j < y.Length1 ==> y[i, j] == old(y[i, j]) + dy
    {
      ghost var before := Contents().value;
      AddToArray(x, dx);
      AddToArray(y, dy);
      ghost var after := Moved(before, dx, dy);
      assert after.x == Cells(x) && after.y == Cells(y);
      assert Contents() == Some(TrackData(after.time, after.x, after.y, after.nObjects));
    }

    /** Shifts every x by `difference.0` and every y by `difference.1`, in place. */
    method Move(difference: (real, real))
      requires Valid() && time != null
      modifies x, y
      ensures Valid()
      ensures Contents() == Some(Moved(old(Contents()).value, difference.0, difference.1))
      ensures forall i, j :: 0 <= i < x.Length0 && 0 <= j < x.Length1 ==> x[i, j] == old(x[i, j]) + difference.0
      ensures forall i, j :: 0 <= i < y.Length0 && 0 <= j < y.Length1 ==> y[i, j] == old(y[i, j]) + difference.1
    {
      MoveXY(difference.0, difference.1);
    }

    /** Multiplies every x and every y by `factor`, in place. */
    method Scale(factor: real)
      requires Valid() && time != null
      modifies x, y
      ensures Valid()
      ensures Contents() == Some(Scaled(old(Contents()).value, factor))
      ensures forall i, j :: 0 <= i < x.Length0 && 0 <= j < x.Length1 ==> x[i, j] == old(x[i, j]) * factor
      ensures forall i, j :: 0 <= i < y.Length0 && 0 <= j < y.Length1 ==> y[i, j] == old(y[i, j]) * factor
    {
      ghost var before := Contents().value;
      MultiplyArray(x, factor);
      MultiplyArray(y, factor);
      ghost var after := Scaled(before, factor);
      assert after.x == Cells(x) && after.y == Cells(y);
      assert Contents() == Some(TrackData(after.time, after.x, after.y, after.nObjects));
    }

    /**
     * The mean of the consecutive time differences: the total span over the
     * number of intervals, undefined (NaN) for fewer than two samples.
     */
    function Timestep(): (step: Option<real>)
      reads this, time
      requires Valid() && time != null
      ensures time.Length >= 2 ==> step == Some((time[time.Length - 1] - time[0]) / (time.Length - 1) as real)
      ensures time.Length < 2 ==> step == None
    {
      Timeline.Timestep(time[..])
    }

    /**
     * Re-samples both coordinate matrices onto `newtime`, object by object,
     * then makes `newtime` the track's time vector. Refused (`ok` false, the
     * track untouched) when there are objects but no old time samples.
     */
    method TimeInterpolate(newtime: array<real>) returns (ok: bool)
      requires Valid()
      modifies this
      ensures Valid()
      ensures ok == CanInterpolate(old(Contents()))
      ensures ok ==> Contents() == TimeInterpolated(old(Contents()), newtime[..])
      ensures ok ==> time == newtime && fresh(x) && fresh(y)
      ensures !ok ==> unchanged(this)
    {
      ghost var before := Contents();
      ghost var target := TimeInterpolated(before, newtime[..]);
      var rows, n := newtime.Length, nObjects;
      var newx := new real[rows, n]((_, _) => 0.0);
      var newy := new real[rows, n]((_, _) => 0.0);
      for index := 0 to n
        invariant index > 0 ==> target.Some?
        invariant forall r, j :: 0 <= r < rows && 0 <= j < n ==>
          newx[r, j] == (if j < index then target.value.x[r][j] else 0.0)
        invariant forall r, j :: 0 <= r < rows && 0 <= j < n ==>
          newy[r, j] == (if j < index then target.value.y[r][j] else 0.0)
        modifies newx, newy
      {
        if time.Length == 0 {
          return false;
        }
        var columnX := Interp(newtime[..], time[..], Column(Cells(x), index));
        var columnY := Interp(newtime[..], time[..], Column(Cells(y), index));
        ResampleColumn(newtime[..], before.value, index);
        SetColumn(newx, index, columnX);
        SetColumn(newy, index, columnY);
      }
      x, y, time := newx, newy, newtime;
      ok := true;
      ghost var after := target.value;
      CellsAre(x, after.x);
      CellsAre(y, after.y);
      assert Contents() == Some(TrackData(after.time, after.x, after.y, after.nObjects));
    }

    /**
     * Once x, y and time are all set, reports the object count and the
     * earliest and latest time; fails when the time vector is empty;
     * reports "not initialized" otherwise.
     */
    function Summary(): (s: Summary)
      reads this, time
      requires Valid()
      ensures s == NotInitialized <==> time == null
      ensures s == EmptyTimeError <==> time != null && time.Length == 0
      ensures s.Initialized? ==> s.nObjects == nObjects
      ensures s.Initialized? ==> s.earliest in time[..] && s.latest in time[..]
      ensures s.Initialized? ==> forall k :: 0 <= k < time.Length ==> s.earliest <= time[k] <= s.latest
    {
      if x != null && y != null && time != null then
        if time.Length == 0 then EmptyTimeError
        else Initialized(nObjects, Timeline.Minimum(time[..]), Timeline.Maximum(time[..]))
      else NotInitialized
    }
  }
}
