/**
 * The tab-separated "classic" column layout of a track (the format of the
 * RepMot/RevMot studies): one row per time sample holding the time, then
 * x and y of object 0, x and y of object 1, and so on, so that a matrix of
 * `n` objects has `2n+1` columns. Reading and writing the file itself is
 * not part of this model; only the matrix layout is.
 */
module Layout {
  import opened Wrappers
  import opened Matrices
  import opened TrackModel

  /** `xs[0], ys[0], xs[1], ys[1], ...`: the x/y pairs of one row side by side. */
  function Interleave(xs: seq<real>, ys: seq<real>): (r: seq<real>)
    requires |xs| == |ys|
    ensures |r| == 2 * |xs|
    ensures forall j :: 0 <= j < |xs| ==> r[2 * j] == xs[j] && r[2 * j + 1] == ys[j]
    decreases |xs|
  {
    if xs == [] then [] else [xs[0], ys[0]] + Interleave(xs[1..], ys[1..])
  }

  /** Every second cell of `s` from index `start` on (Python `s[start::2]`). */
  function Strided(s: seq<real>, start: nat): (r: seq<real>)
    ensures start < |s| ==> |s| - start <= 2 * |r| <= |s| - start + 1
    ensures start >= |s| ==> r == []
    ensures forall k :: 0 <= k < |r| ==> start + 2 * k < |s| && r[k] == s[start + 2 * k]
    decreases |s| - start
  {
    if start >= |s| then [] else [s[start]] + Strided(s, start + 2)
  }

  /** Both strided slices of a row of `2n+1` cells hold `n` cells: x from column 1, y from column 2. */
  lemma StridedOfRow(row: seq<real>, n: nat, start: nat)
    requires |row| == 2 * n + 1 && 1 <= start <= 2
    ensures |Strided(row, start)| == n
    ensures forall j :: 0 <= j < n ==> Strided(row, start)[j] == row[start + 2 * j]
  {
  }

  /** Every row of a `2n+1`-column matrix splits into `n` x cells and `n` y cells. */
  lemma StridedRows(m: Matrix, n: nat)
    requires IsMatrix(m, |m|, 2 * n + 1)
    ensures forall i :: 0 <= i < |m| ==> |Strided(m[i], 1)| == n && |Strided(m[i], 2)| == n
    ensures forall i, j :: 0 <= i < |m| && 0 <= j < n ==>
      Strided(m[i], 1)[j] == m[i][1 + 2 * j] && Strided(m[i], 2)[j] == m[i][2 + 2 * j]
  {
    forall i | 0 <= i < |m|
      ensures |Strided(m[i], 1)| == n && |Strided(m[i], 2)| == n
      ensures forall j :: 0 <= j < n ==> Strided(m[i], 1)[j] == m[i][1 + 2 * j] && Strided(m[i], 2)[j] == m[i][2 + 2 * j]
    {
      StridedOfRow(m[i], n, 1);
      StridedOfRow(m[i], n, 2);
    }
  }

  /** The saved matrix: the time as column 0 followed by the interleaved x/y pairs. */
  function SaveLayout(t: TrackData): (m: Matrix)
    requires WellShaped(t)
    ensures IsMatrix(m, |t.time|, 2 * t.nObjects + 1)
    ensures forall r :: 0 <= r < |t.time| ==> m[r][0] == t.time[r]
    ensures forall r, j :: 0 <= r < |t.time| && 0 <= j < t.nObjects ==>
      m[r][1 + 2 * j] == t.x[r][j] && m[r][2 + 2 * j] == t.y[r][j]
  {
    seq(|t.time|, r requires 0 <= r < |t.time| => [t.time[r]] + Interleave(t.x[r], t.y[r]))
  }

  /**
   * The track read from a matrix of `ncol` columns: with an odd count, the
   * time is column 0, x the odd columns and y the even columns from 2 on, and
   * the object count is the number of x columns; an even count is not
   * expected and reads nothing (`None`).
   */
  function LoadLayout(m: Matrix, ncol: nat): (r: Option<TrackData>)
    requires IsMatrix(m, |m|, ncol)
    ensures r.Some? <==> ncol % 2 == 1
    ensures r.Some? ==> WellShaped(r.value) && |r.value.time| == |m| && r.value.nObjects == (ncol - 1) / 2
    ensures r.Some? ==> forall i :: 0 <= i < |m| ==> r.value.time[i] == m[i][0]
    ensures r.Some? ==> forall i, j :: 0 <= i < |m| && 0 <= j < r.value.nObjects ==>
      r.value.x[i][j] == m[i][1 + 2 * j] && r.value.y[i][j] == m[i][2 + 2 * j]
  {
    if ncol % 2 == 1 then
      StridedRows(m, (ncol - 1) / 2);
      var x := seq(|m|, i requires 0 <= i < |m| => Strided(m[i], 1));
      var y := seq(|m|, i requires 0 <= i < |m| => Strided(m[i], 2));
      Some(TrackData(Column(m, 0), x, y, (ncol - 1) / 2))
    else
      None
  }

  /** Loading the saved matrix restores the time, both matrices and the object count exactly. */
  lemma LoadAfterSave(t: TrackData)
    requires WellShaped(t)
    ensures LoadLayout(SaveLayout(t), 2 * t.nObjects + 1) == Some(t)
  {
    var m := SaveLayout(t);
    var u := LoadLayout(m, 2 * t.nObjects + 1).value;
    assert u.time == t.time;
    forall r | 0 <= r < |t.time|
      ensures u.x[r] == t.x[r] && u.y[r] == t.y[r]
    {
    }
    assert u.x == t.x && u.y == t.y;
  }

  /** Saving a loaded odd-column matrix gives back the same matrix. */
  lemma SaveAfterLoad(m: Matrix, ncol: nat)
    requires IsMatrix(m, |m|, ncol) && ncol % 2 == 1
    ensures SaveLayout(LoadLayout(m, ncol).value) == m
  {
    var t := LoadLayout(m, ncol).value;
    forall i | 0 <= i < |m|
      ensures SaveLayout(t)[i] == m[i]
    {
      assert t.x[i] == Strided(m[i], 1) && t.y[i] == Strided(m[i], 2);
      RowAfterSplit(m[i], (ncol - 1) / 2);
    }
  }

  /** One odd-length row split into time, odd and even cells and put back together. */
  lemma RowAfterSplit(row: seq<real>, n: nat)
    requires |row| == 2 * n + 1
    ensures [row[0]] + Interleave(Strided(row, 1), Strided(row, 2)) == row
  {
    var xs, ys := Strided(row, 1), Strided(row, 2);
    assert |xs| == n && |ys| == n;
    var pairs := Interleave(xs, ys);
    assert forall j :: 0 <= j < n ==> pairs[2 * j] == row[1 + 2 * j] && pairs[2 * j + 1] == row[2 + 2 * j];
    PairsAfterTime(row, n, pairs);
  }

  /** A row is its first cell followed by any `2n` cells that agree with the rest of it, pair by pair. */
  lemma PairsAfterTime(row: seq<real>, n: nat, pairs: seq<real>)
    requires |row| == 2 * n + 1 && |pairs| == 2 * n
    requires forall j :: 0 <= j < n ==> pairs[2 * j] == row[1 + 2 * j] && pairs[2 * j + 1] == row[2 + 2 * j]
    ensures [row[0]] + pairs == row
  {
    forall k | 0 < k < |row|
      ensures pairs[k - 1] == row[k]
    {
      var j := (k - 1) / 2;
      if k % 2 == 1 {
        assert k == 1 + 2 * j;
      } else {
        assert k == 2 + 2 * j;
      }
    }
  }
}
