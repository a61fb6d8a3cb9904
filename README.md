# motbox `Track` in Dafny

A model of the trajectory container `Track` of motbox, the toolbox that produces
object trajectories for multiple-object-tracking experiments. A track holds a time
vector of `T` samples and two `T`×`n` coordinate matrices `x` and `y` (one row per
time sample, one column per object), plus the object count `n_objects`. The model
covers:

- the empty constructor;
- the "classic" tab-separated column layout (time, then x0, y0, x1, y1, …), in both
  directions, with the exact round trip between them;
- in-place translation (`move`) and scaling (`scale`);
- the estimated time step (`timestep`, the mean of `numpy.diff(time)`);
- re-sampling onto a new time grid (`time_interpolate`), column by column through a
  piecewise-linear interpolation that stands in for `numpy.interp`;
- `summary`: the object count with the earliest and latest time, "not initialized", or
  the failure on an empty time vector.

Modules, leaves first:

- `Wrappers` — `Option`, used where the source keeps `None` or numpy yields NaN.
- `Matrices` — matrices as `seq<seq<real>>`, columns, and the elementwise shift and
  scale with their algebra (inverse, composition, distribution).
- `Interpolation` — `InterpAt` (one query) and `Interp` (a vector of queries): clamp to
  the first/last value outside the grid, on the line through the two bracketing samples
  between grid points, with the last of several equal sample points chosen as numpy
  does.
- `Timeline` — `Diff`, `Sum`, `Mean`, `Timestep`, `Minimum`, `Maximum`.
- `TrackModel` — the value of an initialised track (`TrackData`), its shape invariant
  and the value-level effect of move, scale and re-sampling.
- `Layout` — the save layout and the load layout of the classic format.
- `Tracks` — the class `Track`. numpy arrays are updated in place by the source, so
  the coordinates are `array2<real>` fields and the time an `array<real>` field; a
  field the source leaves as `None` is a null reference. `Valid()` says that either
  nothing is set (and `nObjects == 0`) or all three arrays are, with matching shapes;
  `Contents()` gives the track's value as an `Option<TrackData>`. Each method states
  its new state through `Contents()` and the functions of `TrackModel`/`Layout`.

`src/pymot.py` is an older copy of the same class, without docstrings and with other
local names. Every modelled method behaves as its namesake in `motbox/track.py`, except
that `move` takes two scalars, so one model serves both:
`Track.MoveXY` is the snapshot's `move(dx, dy)` and `Track.Move` is the newer
`move(difference)`. Rows below cite whichever of the two files states the behaviour.

Error behaviour. On an uninitialised track `move`, `scale` and `save_to_csv_v0` fail
with a `TypeError` on `None`, and `timestep` fails with a `ValueError` because
`numpy.diff` refuses a zero-dimensional input. These members therefore require an
initialised track (see "Left out"). `summary` on an initialised track with an empty time
vector fails with a `ValueError` from `numpy.amin`; this is modelled as the result
`EmptyTimeError`. Such a track arises from re-sampling onto an empty grid or from loading
a matrix with no rows. `numpy.interp` raises on an empty grid of sample points. `TimeInterpolate`
therefore returns `ok == false` and leaves the track untouched when there are objects
but no old time samples. An uninitialised track has no objects, so no interpolation
runs on it. Re-sampling it succeeds and yields an initialised track with 0 objects,
exactly as the source does. `numpy.mean` of the empty difference vector (fewer than
two time samples) is NaN, modelled as `None`.

## Model

| member | source | states |
|---|---|---|
| `Tracks.Track.constructor` | motbox/track.py:15-21 | a new track has time, x and y unset (`Contents() == None`) and `nObjects == 0` |
| `Tracks.Track.Summary` | motbox/track.py:107-114 | "not initialized" exactly when the track holds no data; a failure exactly when it holds an empty time vector; otherwise the object count and the earliest and latest time, each a sample of the time vector and below/above every sample |
| `Timeline.Minimum` | motbox/track.py:112 | `numpy.amin`: a cell of the (non-empty) input no larger than any cell |
| `Timeline.Maximum` | motbox/track.py:112 | `numpy.amax`: a cell of the (non-empty) input no smaller than any cell |
| `Tracks.Track.LoadFromCsvV0` | motbox/track.py:24-41 | with an odd column count the fields become the split columns of the matrix (`Layout.LoadLayout`); with an even count nothing changes |
| `Tracks.SliceColumns` | src/pymot.py:19-20 | a fresh array holding every second column from column 1 (x) or 2 (y), one row per matrix row, `(ncol-1)/2` columns |
| `Layout.Strided` | motbox/track.py:34-35 | `s[start::2]`: cell k is `s[start+2k]`, and the slice has half the remaining cells, rounded up |
| `Layout.LoadLayout` | motbox/track.py:31-40 | defined (Some) iff the column count is odd; then time is column 0, `x[i][j]` is column `1+2j`, `y[i][j]` is column `2+2j`, and there are `(ncol-1)/2` objects with one row per matrix row |
| `Layout.Interleave` | motbox/track.py:51-53 | the x/y pairs of one row side by side: cell `2j` is `x[j]`, cell `2j+1` is `y[j]`, twice as many cells |
| `Layout.SaveLayout` | motbox/track.py:49-54 | `len(time)` rows of `2n+1` columns; column 0 is the time, column `1+2j` is `x[r][j]`, column `2+2j` is `y[r][j]` |
| `Tracks.Track.SaveToCsvV0` | motbox/track.py:43-55 | the saved matrix has `len(time)` rows and `2n+1` columns, and loading it yields exactly this track's contents |
| `Layout.LoadAfterSave` | src/pymot.py:16-34 | loading the saved matrix restores time, x, y and the object count exactly |
| `Layout.SaveAfterLoad` | motbox/track.py:31-54 | saving a track loaded from an odd-column matrix gives back the same matrix |
| `Tracks.Track.Move` | motbox/track.py:57-63 | every x cell gains `difference.0` and every y cell `difference.1`, in place; time, object count and shapes are unchanged |
| `Tracks.Track.MoveXY` | src/pymot.py:37-39 | every x cell gains `dx` and every y cell `dy`, in place; nothing else changes |
| `TrackModel.Moved` | motbox/track.py:62-63 | a moved track keeps its time, object count and shape, and each cell is shifted by the difference |
| `Tracks.AddToArray` | motbox/track.py:62-63 | `a += d` in place: every cell gains `d`, and the array's contents are the shifted matrix |
| `TrackModel.MoveInverse` | motbox/track.py:57-63 | moving by `(dx, dy)` and then by `(-dx, -dy)` restores the track |
| `TrackModel.MoveComposes` | src/pymot.py:37-39 | two moves equal one move by the summed difference |
| `Tracks.Track.Scale` | motbox/track.py:65-70 | every x and y cell is multiplied by the factor, in place; time and object count are unchanged |
| `TrackModel.Scaled` | src/pymot.py:41-43 | a scaled track keeps its time, object count and shape, and each cell is multiplied by the factor |
| `Tracks.MultiplyArray` | motbox/track.py:69-70 | `a *= f` in place: every cell is multiplied by `f`, and the array's contents are the scaled matrix |
| `TrackModel.ScaleInverse` | motbox/track.py:69-70 | scaling by a non-zero factor and then by its reciprocal restores the track |
| `TrackModel.ScaleAfterMove` | motbox/track.py:57-70 | scaling a moved track equals moving the scaled track by the scaled difference |
| `Timeline.Diff` | motbox/track.py:75 | `numpy.diff`: one cell fewer than the input (none for an empty input), cell i is `s[i+1]-s[i]` |
| `Timeline.SumOfDiff` | src/pymot.py:45-46 | the consecutive differences telescope to `last - first` |
| `Tracks.Track.Timestep` | motbox/track.py:72-75 | for at least two samples the step is `(time[last]-time[0])/(len(time)-1)`; otherwise undefined (NaN) |
| `Timeline.Mean` | motbox/track.py:75 | `numpy.mean`: defined exactly for a non-empty input, and then the mean times the count is the sum; NaN (None) for an empty input |
| `Timeline.Timestep` | src/pymot.py:45-46 | the mean of consecutive differences is the total span over the number of intervals, NaN for fewer than two samples |
| `Timeline.UniformGridTimestep` | test/test_track.py:57-59 | on a uniform grid `t0 + i*h` the time step is exactly `h` |
| `Interpolation.InterpAt` | motbox/track.py:87-88 | `numpy.interp` at one query on a non-decreasing grid: left of the first grid point the value is the first sample, at or right of the last grid point the last sample |
| `Interpolation.InterpAtSegment` | motbox/track.py:87-88 | when `xp[k] <= t < xp[k+1]` on a non-decreasing grid (so `k` is the last sample point at or before `t`, numpy's choice) the value is on the line through samples `k` and `k+1`: `(fp[k+1]-fp[k])/(xp[k+1]-xp[k])*(t-xp[k]) + fp[k]` |
| `Interpolation.Interp` | motbox/track.py:87-88 | `numpy.interp` on an array of queries: one value per query; what each value is, is stated by `InterpAt` and the lemmas about it |
| `Interpolation.InterpAtGridPoint` | motbox/track.py:87-88 | on a strictly increasing grid, interpolation at a grid point returns that sample's value exactly |
| `Interpolation.InterpAtWithin` | motbox/track.py:87-88 | the interpolated value lies within any range that holds all sample values |
| `Interpolation.InterpAtPlus` | motbox/track.py:87-88 | interpolating shifted samples gives the shifted interpolation |
| `Interpolation.InterpAtTimes` | motbox/track.py:87-88 | interpolating scaled samples gives the scaled interpolation |
| `Tracks.SetColumn` | src/pymot.py:53-54 | column `index` of the array becomes the given column; every other cell is unchanged |
| `Tracks.Track.TimeInterpolate` | motbox/track.py:77-91 | refused (track untouched) iff there are objects but no old samples; otherwise time becomes `newtime` and x, y become fresh `len(newtime)`×`n` matrices filled column by column from the old columns |
| `TrackModel.TimeInterpolated` | src/pymot.py:48-57 | the re-sampled track has time `newtime`, `len(newtime)` rows of `n` columns and the same object count; it exists iff interpolation is possible |
| `TrackModel.ResampleColumn` | motbox/track.py:86-88 | column j of each new matrix is the old column j interpolated at every new time against the old grid |
| `TrackModel.TimeInterpolateColumnLocal` | src/pymot.py:52-54 | a new column depends only on the same object's old column and the old time grid |
| `TrackModel.TimeInterpolateOwnGrid` | motbox/track.py:83-91 | re-sampling onto the track's own strictly increasing grid leaves it unchanged |
| `TrackModel.TimeInterpolateAfterMove` | motbox/track.py:57-91 | re-sampling a moved track equals moving the re-sampled track |
| `TrackModel.TimeInterpolateAfterScale` | motbox/track.py:65-91 | re-sampling a scaled track equals scaling the re-sampled track |
| `TrackModel.TimeInterpolateStaysInBox` | motbox/track.py:83-91 | an object inside a box at every old sample stays inside it at every new sample |

## Left out

- File reading and writing (`numpy.genfromtxt`, `numpy.savetxt`): the model maps between
  a row matrix and the track's fields. This also leaves out `genfromtxt` returning a
  one-dimensional array for a one-line file, on which `load_from_csv_v0` fails.
- `load_from_csv` and `save_to_csv`: they only pass the file name to the `_v0` versions,
  so without files they are those versions.
- The text of `summary`: the model returns the values it formats (object count,
  earliest and latest time), not the formatted string.
- Floating point: coordinates and times are exact `real`s, so rounding in
  `numpy.interp`, `numpy.mean` and the in-place arithmetic is not modelled.
- Tracks.Track.Move: requires an initialised track; on an uninitialised one the source
  raises a `TypeError`, which the model does not return as a result.
- Tracks.Track.MoveXY: requires an initialised track; the source's `TypeError` on `None`
  is not modelled.
- Tracks.Track.Scale: requires an initialised track; the source's `TypeError` on `None`
  is not modelled.
- Tracks.Track.SaveToCsvV0: requires an initialised track; the source's `TypeError` from
  `len(None)` is not modelled.
- Tracks.Track.Timestep: requires an initialised track; the source's `ValueError` from
  `numpy.diff(None)` is not modelled.
- Tracks.Track.Move: the difference is a pair of scalars; numpy would also broadcast a
  per-object vector of offsets, which is not modelled.
- Interpolation.InterpAt: for a time grid that decreases somewhere (which the source does
  not check) it scans the grid from the left for the first sample point beyond the
  query, which need not match numpy's binary search. Repeated sample points are handled
  as numpy does. The clamping and segment results hold for non-decreasing grids; the
  grid-point result is stated for strictly increasing ones.
- `load_from_csv_v0` makes `x` and `y` views into the parsed matrix; the model allocates
  fresh arrays, which is indistinguishable since the matrix is local. The aliasing of
  the caller's `newtime` array by `time_interpolate` is kept (`time := newtime`).
- The `__main__` blocks of both files, the `Puppeteer` stimulus binding and its
  `position_for_time`, plotting, video rendering and the command-line glue.
- Trajectory generation (positions, boundary reflection, collision grouping, von Mises
  heading noise): it is not part of this model.
