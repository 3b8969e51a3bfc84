# Simplex and dispersion plots of a 1-D particle-in-cell simulation

This project models the logic inside two post-processing scripts of a
one-dimensional electrostatic particle-in-cell code, and proves properties
of that logic in Dafny.

- `plot_simplex.py` reads, for every particle species, a `simplexN.csv`
  file. In that file a `Time <step>` line opens a new frame and every other
  line holds the positions `px1, px2` of a tracer pair.
  - Each position is wrapped onto the periodic domain of length
    `sim_size` with `divmod`.
  - The pair is coloured by how many whole domain lengths lie between the
    two positions: blue, green or red.
  - The pair is drawn either as one segment or as a segment split across
    the boundary.
  - The figure being built is saved when the next `Time` line arrives,
    under that line's time.
- `plot_dispersion.py`:
  - `load_csv` reads a table and turns Fortran overflow markers (runs of
    10 to 19 `*`) into 0 when the direct conversion to floats fails.
  - `plot_2dmap` resolves the colour-scale bounds `vmin`/`vmax`. A bound
    is a number, `'fit'`, `'tileNN'` or absent.
  - `plot_dispersion`:
    - centres the 2-D FFT of a (time, space) field with `fftshift`;
    - scales its modulus by `(nt/2)(nx/2)`;
    - crops it by the fractional window `tstart..tend`, `xstart..xend`;
    - labels it with `k` and `w / wpe` axes cut from `fftfreq`;
    - overlays the theoretical electron-plasma and ion-acoustic curves.

Modules:

| module | file | contents |
|---|---|---|
| `Wrappers` | `wrappers.dfy` | `Option` and `Result` |
| `Python` | `python.dfy` | float `divmod` and `//`, `abs`, `int()` truncation, and slicing `s[a:b]` with negative and clipped bounds |
| `NumPy` | `numpy.dfy` | `fftshift`, `fftfreq`, `reshape(-1)`, and `mean`, population `var`, `min` and `max`, each by its documented definition |
| `Simplex` | `simplex.dfy` | the pair classifier (pure functions), and the line scanner as methods with loop invariants |
| `LoadCsv` | `load_csv.dfy` | the cleanup, as a method whose loop replaces one run length per step |
| `ColorScale` | `color_scale.dfy` | the bound parsing and resolution of `plot_2dmap` |
| `Dispersion` | `dispersion.dfy` | amplitude, crop, axes, theory curves and the composed `plot_dispersion` |

Positions, amplitudes and frequencies are exact `real`s. The 2-D FFT is the
input itself: the model takes the transform already computed. The square
root, `np.percentile`, `float()` of text and `int()` of text are function
parameters.

## Model

| member | source | states |
|---|---|---|
| `Python.DivMod` | plot_simplex.py:74-75 | `divmod(px, sim_size)` for `sim_size > 0`: the remainder lies in `[0, sim_size)` and `px = q * sim_size + r` |
| `Python.FloorDiv` | plot_simplex.py:76 | `x // y` is the integer `q` with `q*y <= x < (q+1)*y` |
| `Python.Abs` | plot_simplex.py:76 | `abs(x)` is non-negative and is `x` or `-x` |
| `Python.Int` | plot_dispersion.py:134-135 | `int(x)` truncates toward zero: for `x >= 0` it is the greatest integer not above `x`, for `x < 0` the least not below it |
| `Python.Slice` | plot_dispersion.py:136 | `s[a:b]` has `hi - lo` elements (or none), element `i` being `s[lo + i]`, where negative bounds count from the end and bounds are clipped to `[0, len]` |
| `Python.SliceBound` | plot_dispersion.py:136 | a slice bound inside `[0, len]` is kept; a negative one counts from the end, and becomes 0 when it reaches past the start; one beyond the end becomes `len`; the result is always within `[0, len]` |
| `Python.SliceWithin` | plot_dispersion.py:136 | with `0 <= a <= b <= len`, `s[a:b]` is exactly the contiguous block `a..b` |
| `NumPy.FftShift` | plot_dispersion.py:127 | `fftshift` rolls by `n//2`: element `k >= n//2` is `s[k - n//2]`, element `k < n//2` is `s[k + n - n//2]` |
| `NumPy.FftShift2` | plot_dispersion.py:127 | on a 2-D array, `fftshift` rolls the rows by `nt//2` and every row by `nx//2` |
| `NumPy.FreqBins` | plot_dispersion.py:144-145 | `fftfreq`'s bin `j` is `j` for the first `n - n//2` entries and `j - n` after them |
| `NumPy.FftFreq` | plot_dispersion.py:144-145 | `fftfreq(n, d)` has `n` entries; entry `j` is `j / (n d)` for the first `n - n//2` entries and `(j - n) / (n d)` after them |
| `NumPy.ShiftedBinsAscend` | plot_dispersion.py:127 | after `fftshift` the bins run upward from `-(n//2)`, bin `i` being `i - n//2` |
| `NumPy.ShiftedFrequenciesAscend` | plot_dispersion.py:127 | after `fftshift` entry `i` of `fftfreq(n, d)` is `(i - n//2) / (n d)` |
| `NumPy.Min` | plot_dispersion.py:42 | `np.min` is an element of the data and not above any element |
| `NumPy.Max` | plot_dispersion.py:44 | `np.max` is an element of the data and not below any element |
| `NumPy.FlattenHas` | plot_dispersion.py:47 | every cell of the map appears in `data.reshape(-1)` |
| `NumPy.FlattenFrom` | plot_dispersion.py:47 | everything in `data.reshape(-1)` is a cell of the map |
| `NumPy.Flatten` | plot_dispersion.py:47 | `data.reshape(-1)` is empty exactly when every row of the map is empty |
| `NumPy.Mean` | plot_dispersion.py:52 | `np.mean` lies between `np.min` and `np.max` |
| `NumPy.Variance` | plot_dispersion.py:53 | `np.var`, the mean squared deviation from the mean, is never negative |
| `Simplex.Local` | plot_simplex.py:74-75 | the remainder of `divmod(px, sim_size)` lies in `[0, sim_size)` |
| `Simplex.Cycle` | plot_simplex.py:74-75 | the quotient of `divmod(px, sim_size)` is the copy `c` with `c * sim_size <= px < c * sim_size + sim_size` |
| `Simplex.Cycles` | plot_simplex.py:76 | `dcycles = abs(px1 - px2) // sim_size` is never negative |
| `Simplex.ColorOf` | plot_simplex.py:78-83 | (body) blue for 0, green for 1, red otherwise; `ColorByDistance` states the classification |
| `Simplex.WrapIntoDomain` | plot_simplex.py:74-75 | the wrapped position `lpx` satisfies `0 <= lpx < sim_size` and `px = ncycle * sim_size + lpx` |
| `Simplex.ColorByDistance` | plot_simplex.py:76-83 | `dcycles >= 0`; blue iff `dcycles == 0` iff the distance is below `sim_size`, green iff 1 iff the distance is in `[sim_size, 2 sim_size)`, red iff `>= 2` iff it is at least `2 sim_size` |
| `Simplex.CyclesByDistance` | plot_simplex.py:76 | `abs(px1 - px2) // sim_size` is 0, 1 or at least 2 exactly when the distance is below one, between one and two, or at least two domain lengths |
| `Simplex.DrawPair` | plot_simplex.py:85-96 | every marker and every segment end drawn for a pair lies in `[0, sim_size]` |
| `Simplex.SameCycleDrawnDirectly` | plot_simplex.py:86-87 | same cycle: one segment `[lpx1, lpx2]`, whose length is `abs(px1 - px2)`, and the pair is blue |
| `Simplex.FarApartCoversDomain` | plot_simplex.py:89-90 | different cycles and more than `sim_size` apart: the one segment `[0, sim_size]`, never blue |
| `Simplex.NearAcrossBoundarySplit` | plot_simplex.py:91-96 | different cycles and at most `sim_size` apart: segments `[local(smaller), sim_size]` and `[0, local(larger)]`, whose lengths add up to `abs(px1 - px2)` |
| `Simplex.NextCopy` | plot_simplex.py:74-75 | two positions at most one domain length apart but in different cycles are in neighbouring cycles |
| `Simplex.Blocks` | plot_simplex.py:59-72 | there is one block of pairs per `Time` header |
| `Simplex.ScanFile` | plot_simplex.py:59-96 | the scan of one file saves exactly `Frames(lines)`: the block of header `j` drawn on a figure titled with header `j`'s time, saved under header `j + 1`'s time. The figure still open at the end, holding the last block, is never saved |
| `Simplex.ScanSpecies` | plot_simplex.py:54-58 | every species' file is scanned on its own, from a fresh counter and no open figure, giving that file's frames |
| `Simplex.FramesAfterHeader` | plot_simplex.py:60-70 | a `Time` line saves the open figure, if there is one, under the new time; it opens an empty figure titled with that time and resets the counter to 0 |
| `Simplex.FramesAfterPair` | plot_simplex.py:71-96 | a data line saves nothing; it raises the counter by exactly 1 and adds the pair's drawing to the open figure at the new counter value |
| `Simplex.RowsNumbered` | plot_simplex.py:55-72 | the `k`-th pair after a header (counting from 0) is drawn at height `k + 1` |
| `Simplex.BlocksPartitionPairs` | plot_simplex.py:59-72 | the pairs before the first header, followed by the blocks in order, are exactly the file's pairs |
| `Simplex.NoHeaderTimes` | plot_simplex.py:60 | a file has no header time exactly when it has no `Time` line |
| `Simplex.HeaderTimesAppend` | plot_simplex.py:62 | a line read adds its time to the header times exactly when it is a `Time` line |
| `Simplex.BlocksAppendHeader` | plot_simplex.py:60-70 | a `Time` line opens a new, empty block |
| `Simplex.BlocksAppendPair` | plot_simplex.py:71-96 | a data line extends the last block, if there is one |
| `Simplex.SavedFramesAppend` | plot_simplex.py:63-67 | a new header appends the figure of the previous block, saved under the new time |
| `Simplex.SavedFramesExtendLast` | plot_simplex.py:71-96 | growing the last block changes no saved frame |
| `Simplex.LastFigureExtendLast` | plot_simplex.py:71-96 | growing the last block adds one row to the open figure, at the next height |
| `LoadCsv.Load` | plot_dispersion.py:18-29 | a table that converts is returned unchanged and without the warning. Otherwise the warning is printed and the replacement loop runs. Its invariant is that, after run lengths `10..n-1`, the table is `CleanedBelow(df, n)`. The result is the cleaned table's values, or `NotNumeric` when it still does not convert |
| `LoadCsv.Replace` | plot_dispersion.py:26 | `df.replace(pattern, 0)` keeps the shape and zeroes exactly the cells whose whole text is the pattern |
| `LoadCsv.Stars` | plot_dispersion.py:26 | `'*' * n` is `n` stars |
| `LoadCsv.ReplaceNext` | plot_dispersion.py:25-26 | replacing the run of `n` stars extends the cleanup by that one run length |
| `LoadCsv.CleanChangesOnlyMarkers` | plot_dispersion.py:25-26 | a cell changes iff its whole text is a run of 10 to 19 stars, and then it becomes 0 |
| `LoadCsv.CleanIdempotent` | plot_dispersion.py:25-26 | cleaning twice is cleaning once |
| `LoadCsv.CleanKeepsNumeric` | plot_dispersion.py:20-28 | cleaning never makes a table that converts fail to convert |
| `ColorScale.ParseBound` | plot_dispersion.py:41-50 | a bound reads as absent exactly for `None`, as fixed exactly for a number (its value unchanged), as `'fit'` exactly for the text `'fit'`; a percentile only from text starting with `'tile'`; any other text is unrecognised |
| `ColorScale.DeleteAll` | plot_dispersion.py:46 | `str.replace(pat, '')` never lengthens the text |
| `ColorScale.TileReadsPercent` | plot_dispersion.py:45-46 | `'tile' + digits` is not `'fit'`, starts with `'tile'`, and reads as the percentile `int(digits)`, or fails when `int()` does |
| `ColorScale.DeleteAllAbsent` | plot_dispersion.py:46 | `str.replace('tile', '')` leaves text without a `t` unchanged |
| `ColorScale.Resolve` | plot_dispersion.py:41-58 | resolving one bound can fail only on an empty map or on a `'tile'` bound |
| `ColorScale.PlotMap` | plot_dispersion.py:40-63 | a colour scale is produced only for a non-empty map, because `np.min(data)` at line 63 raises on an empty one |
| `ColorScale.FitEnclosesMap` | plot_dispersion.py:41-44 | on a non-empty map `'fit'` bounds always resolve; `vmin <= cell <= vmax` for every cell, and both bounds are cells of the map |
| `ColorScale.TileIsPercentile` | plot_dispersion.py:45-50 | `'tileNN'` bounds with `NN` in `[0, 100]` are the `NN`-th percentiles of the flattened map |
| `ColorScale.DefaultsAroundMean` | plot_dispersion.py:51-58 | absent bounds are `mean -/+ var * nsigma`: symmetric about the mean, and with `nsigma >= 0` they enclose it |
| `ColorScale.NumbersPassThrough` | plot_dispersion.py:40-63 | numeric bounds pass through unchanged whenever the map is non-empty; an empty map fails |
| `Dispersion.Modulus` | plot_dispersion.py:130 | for a genuine square root, `np.abs(z)` is the non-negative number whose square is `re^2 + im^2` |
| `Dispersion.Amplitude` | plot_dispersion.py:130 | the amplitude map keeps the shape of the transform |
| `Dispersion.AmplitudeNonNegative` | plot_dispersion.py:130 | for a genuine square root every amplitude is `>= 0`, and the map is `nt` by `nx` |
| `Dispersion.AmplitudeCell` | plot_dispersion.py:130 | amplitude cell `(i, j)` is `abs(z[i][j]) / (nt/2) / (nx/2)` |
| `Dispersion.CropIndex` | plot_dispersion.py:134-135 | (body) `int(frac * n)`; `CropIndices` bounds it |
| `Dispersion.CropBounds` | plot_dispersion.py:134-135 | (body) the four indices `int(tstart*nt)`, `int(tend*nt)`, `int(xstart*nx)`, `int(xend*nx)`; `CropBoundsWithin` orders them |
| `Dispersion.CropIndices` | plot_dispersion.py:134-135 | for `0 <= start <= end <= 1`, `int(start*n)` and `int(end*n)` satisfy `0 <= lo <= hi <= n` |
| `Dispersion.CropBoundsWithin` | plot_dispersion.py:134-135 | for fractions in `[0, 1]` all four crop indices are ordered and inside the map |
| `Dispersion.Crop` | plot_dispersion.py:136 | (body) `amp[t0:t1, x0:x1]` as two Python slices; `CropWithin` states the kept block |
| `Dispersion.Focused` | plot_dispersion.py:136 | (body) `amp_focused`, the crop at the four indices |
| `Dispersion.CropWithin` | plot_dispersion.py:136 | `amp[t0:t1, x0:x1]` with indices inside the map is `(t1-t0)` by `(x1-x0)`, and its cell `(i, j)` is `amp[t0+i][x0+j]` |
| `Dispersion.CropCell` | plot_dispersion.py:136 | one cell of a crop is the map cell offset by the crop's start |
| `Dispersion.Axis` | plot_dispersion.py:144-145 | `fftfreq(n, d)[:count] * 2 * pi` has `count` entries for `0 <= count <= n` |
| `Dispersion.KAxis` | plot_dispersion.py:144 | with crop indices inside the map, `k` has `x_end - x_start` entries |
| `Dispersion.WAxis` | plot_dispersion.py:145-146 | with crop indices inside the map, `w / wpe` has `t_end - t_start` entries |
| `Dispersion.Normalised` | plot_dispersion.py:146 | `w /= wpe` keeps the length, and every entry times `wpe` gives the entry back |
| `Dispersion.CropKeepsWindow` | plot_dispersion.py:136-146 | the crop keeps rows `t_start..t_end-1` and columns `x_start..x_end-1`, and `k` and `w / wpe` have as many entries as it has columns and rows |
| `Dispersion.Square` | plot_dispersion.py:159 | `k ** 2` is non-negative |
| `Dispersion.ElectronFactor` | plot_dispersion.py:159 | `1 + gamma k^2 debye^2` is at least 1 |
| `Dispersion.ElectronCurve` | plot_dispersion.py:159-160 | `wpe * sqrt(...) / wpe` is `sqrt(1 + gamma k^2 debye^2)`: the plasma frequency cancels |
| `Dispersion.IonArgument` | plot_dispersion.py:161-162 | the expression under the ion root vanishes at `k = 0` |
| `Dispersion.IonCurve` | plot_dispersion.py:161-163 | `ion_disp * wpe` is the square root of the ion-acoustic expression |
| `Dispersion.ElectronCurveSquared` | plot_dispersion.py:158-160 | the normalised electron curve squared is `1 + 3 k^2 debye^2`; the curve is at least 1, and equal to 1 at `k = 0` |
| `Dispersion.IonCurveAtRest` | plot_dispersion.py:161-163 | `(ion_disp * wpe)^2` is the ion-acoustic expression under the root, which is non-negative; the curve is 0 at `k = 0` |
| `Dispersion.IonArgumentNonNegative` | plot_dispersion.py:161-162 | the expression under the ion root is non-negative for non-negative temperatures and a positive ion mass |
| `Dispersion.Overlay` | plot_dispersion.py:164-167 | the curves are drawn exactly when `--notheory` is not given, with one point of each curve per `k` and the reference line at `wpe / wpe = 1` |
| `Dispersion.Columns` | plot_dispersion.py:64 | (body) the number of columns, `data.shape[1]` |
| `Dispersion.MeshFits` | plot_dispersion.py:64 | (body) `pcolormesh` accepts `meshgrid(k, w)` when it has the map's shape or one more row and column |
| `Dispersion.InsideWindowFits` | plot_dispersion.py:134-149 | with crop fractions in `[0, 1]`, every non-empty crop fits its mesh, so `pcolormesh` accepts it |
| `Dispersion.PlotDispersion` | plot_dispersion.py:116-170 | An empty input fails with `EmptyInput`, and a zero spacing with `ZeroSpacing`. A colour-scale error is passed on as `MapError`. After the scale resolves, the plot fails with `ShapeMismatch` exactly when the `k`/`w` mesh does not fit the cropped map. On success, the plot is the cropped amplitude of the shifted transform over the `k` and `w / wpe` axes, the mesh fits it and `w` is non-empty, with the scale `plot_2dmap` resolves, the theory curves unless `--notheory` is given, and y-limits `(min w, max w)` |
| `Dispersion.HalfIndex` | plot_dispersion.py:123-135 | `int(0.5 n) == n // 2` and `int(1.0 n) == n` |
| `Dispersion.DefaultBounds` | plot_dispersion.py:123-135 | the default window crops at `(nt//2, nt, nx//2, nx)` |
| `Dispersion.ShiftedShape` | plot_dispersion.py:127 | `fftshift` keeps an `nt` by `nx` shape and moves cell `(i, j)` of the non-negative frequencies to `(nt//2 + i, nx//2 + j)` |
| `Dispersion.ShiftedRow` | plot_dispersion.py:127 | every row of a shifted `nt` by `nx` array has `nx` entries |
| `Dispersion.ShiftedAt` | plot_dispersion.py:127 | shifted cell `(nt//2 + i, nx//2 + j)` is original cell `(i, j)` |
| `Dispersion.DefaultCrop` | plot_dispersion.py:130-136 | under the default crop, cell `(i, j)` of the cropped map is the amplitude of shifted cell `(nt//2 + i, nx//2 + j)` |
| `Dispersion.DefaultCell` | plot_dispersion.py:130-136 | the same, for one cell |
| `Dispersion.DefaultMap` | plot_dispersion.py:127-136 | under the default crop, cell `(i, j)` of the map is the scaled modulus of unshifted transform cell `(i, j)`, the cell `fftfreq` labels with bins `(i, j)` |
| `Dispersion.AxisFromZero` | plot_dispersion.py:144 | for `count <= n - n//2`, axis entry `j` is `2 pi j / (n d)`, which is also `2 pi` times shifted frequency `n//2 + j` |
| `Dispersion.DefaultColumns` | plot_dispersion.py:144 | under the default crop, `k[j]` is `2 pi` times the frequency of shifted column `nx//2 + j`, the column the map shows at `j` |
| `Dispersion.DefaultRows` | plot_dispersion.py:145-146 | under the default crop, `w[i] / wpe` is `2 pi` times the frequency of shifted row `nt//2 + i` over `wpe`, the row the map shows at `i` |

## Left out

- The 2-D FFT (`np.fft.fft2`, plot_dispersion.py:127) is not computed: the
  transform is an input. `np.abs` on complex numbers is `sqrt(re^2 + im^2)`
  with `sqrt` a parameter, and the properties that need a real square root
  assume `IsSquareRoot(sqrt)`.
- `np.percentile`, `float()` of cell text and `int()` of the `'tileNN'`
  remainder are function parameters.
- Floating-point rounding, NaN and infinities are not modelled: all numbers
  are exact reals.
- Python `int` and NumPy integer widths are not modelled: counts are
  unbounded naturals.
- The text of the files is not parsed:
  - a simplex line is already a `Header(time)` or a `Pair(px1, px2)`;
  - a CSV table is already a grid of `Num` or `Text` cells.
  - Malformed lines, which raise in `int()` or in `float()` and the tuple
    unpacking (plot_simplex.py:62, 73), are not modelled.
- `sim_size > 0` is a precondition of the pair classifier. `sim_size = 0`
  raises `ZeroDivisionError` in `divmod`. A negative domain length has no
  physical meaning.
- `wpe != 0` and `mi != 0` are preconditions of `plot_dispersion`. Both are
  module globals derived from the namelist at start-up
  (plot_dispersion.py:209-217), and the script divides by both.
- `myfft2` (plot_dispersion.py:68-113) is dead code: its call is commented
  out and it returns nothing. `plot_spectram` (plot_dispersion.py:32-37) is
  never called.
- Argument parsing, namelist reading, `pd.read_csv`, the sub-sampling of the
  field and the globals `wpe`, `wpi`, `debye`, `Te`, `Ti`, `mi`
  (plot_simplex.py:30-47, plot_dispersion.py:173-217) are not modelled.
  Their values enter as the parameters `simSize`, `Plasma` and `notheory`.
- Plotting and output are not modelled beyond what is drawn and where:
  the rendering by `pcolormesh` (only its shape check is modelled), colour
  bars, labels, `savefig`, `plt.close`, and the output directory
  (plot_simplex.py:50-52). A drawing is the markers,
  colour and segments of a pair, and a saved frame is its time and figure.
- Pairs read before the first `Time` line of a file are drawn on whatever
  pyplot figure is current, which is never saved: an implicit figure for
  the first species, and the previous species' last figure, never closed
  (plot_simplex.py:58, 68, 85), for later ones. The model counts them but
  keeps no figure for them.
- `ColorScale.PlotMap`: the model reads both bounds before resolving
  either. So when both bounds are bad, the error reported can differ from
  the one the script raises first, for example `'fit'` on an empty map
  before a malformed `vmax`. Which inputs fail, and every successful
  result, are the same.
- `ColorScale.ParseBound`: text that is neither `'fit'` nor starts with
  `'tile'` is passed by the script to `pcolormesh`, which converts it with
  `float()`. Non-numeric text is rejected there, as the model's
  `Unrecognized` says; numeric text such as `'0.5'` is accepted and drawn
  by the script, while the model reports it as `Unrecognized`.
- `Dispersion.PlotDispersion`: the shape check follows the automatic
  shading of current matplotlib releases (same shape, or one more row and
  column); older releases that dropped the last row and column of an
  equal-shape map are not modelled. `np.min(w)` at line 170 cannot fail:
  an empty `w` never fits a non-empty map, so `pcolormesh` has already
  raised.
- `Dispersion.KAxis` and `Dispersion.WAxis`: the axes are always cut from
  the start of the unshifted `fftfreq`. So they label the map's columns and
  rows correctly only when the crop starts at the middle, as the default
  `0.5` does. `DefaultColumns` and `DefaultRows` prove that case. For
  other starts the model keeps the source's labels as written.
- The other scripts `savegif.py`, `energy_plot.py`, `plot_sic.py` and
  `plot.py` are plotting glue. Their `load_csv` is the same function as
  the one modelled here.
