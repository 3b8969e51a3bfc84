/**
 * `plot_dispersion`: the wavenumber-frequency map of a field sampled on a
 * (time, space) grid.  The two-dimensional FFT and the square root stay
 * abstract: the transform is passed in, already computed, and `sqrt` is a
 * parameter.  Around them the model fixes the centring shift, the amplitude
 * normalisation, the crop, the wavenumber and frequency axes, the colour
 * scale and the theoretical electron-plasma and ion-acoustic curves.
 */
module Dispersion {
  import opened Wrappers
  import opened Python
  import opened NumPy
  import ColorScale

  /** A complex spectral value. */
  datatype Complex = Complex(re: real, im: real)

  /**
   * The plasma parameters the script computes at start-up: the electron
   * plasma frequency, the Debye length, the electron and ion temperatures
   * and the ion mass.
   */
  datatype Plasma = Plasma(wpe: real, debye: real, te: real, ti: real, mi: real)

  /** The fractional crop bounds on the time and space axes. */
  datatype Window = Window(tstart: real, tend: real, xstart: real, xend: real)

  /** The crop indices `t_start`, `t_end`, `x_start`, `x_end`. */
  datatype Bounds = Bounds(t0: int, t1: int, x0: int, x1: int)

  /** The overlay: electron and ion curves over `k`, and the reference line `w / wpe = 1`. */
  datatype Theory = Theory(electron: seq<real>, ion: seq<real>, reference: real)

  /** What is drawn: the cropped amplitude map over the `k` and `w / wpe` axes. */
  datatype DispersionPlot = DispersionPlot(
    amp: seq<seq<real>>, k: seq<real>, w: seq<real>,
    scale: ColorScale.Scale, theory: Option<Theory>, ylim: (real, real))

  datatype DispersionError =
    | EmptyInput                         // `fft2` of an array with an empty axis raised
    | ZeroSpacing                        // `fftfreq` divides by `n * d`
    | MapError(e: ColorScale.BoundError) // raised while resolving the colour scale
    | ShapeMismatch                      // `pcolormesh` rejects a mesh that does not fit the map

  /** Boltzmann's constant, `kB` in the script. */
  const Boltzmann: real := 0.00000000000000000000001380649

  /** `np.pi` as the script uses it. */
  const Pi: real := 3.141592653589793

  /** The adiabatic index `gamma` of the theoretical curves. */
  const Gamma: real := 3.0

  ghost predicate IsSquareRoot(sqrt: real -> real)
  {
    forall x :: 0.0 <= x ==> 0.0 <= sqrt(x) && sqrt(x) * sqrt(x) == x
  }

  predicate IsShape<T>(g: seq<seq<T>>, rows: nat, cols: nat)
  {
    |g| == rows && forall i :: 0 <= i < rows ==> |g[i]| == cols
  }

  /** `np.abs` of a complex value: for a genuine square root, the non-negative root of `re^2 + im^2`. */
  function Modulus(z: Complex, sqrt: real -> real): (r: real)
    ensures IsSquareRoot(sqrt) ==> 0.0 <= r && r * r == z.re * z.re + z.im * z.im
  {
    SquareSumNonNegative(z.re, z.im);
    sqrt(z.re * z.re + z.im * z.im)
  }

  /** `np.abs(dispersion) / (nt / 2) / (nx / 2)` on the shifted transform. */
  function Amplitude(spectrum: seq<seq<Complex>>, nt: nat, nx: nat, sqrt: real -> real): (amp: seq<seq<real>>)
    requires 0 < nt && 0 < nx
    ensures |amp| == |spectrum|
    ensures forall i :: 0 <= i < |spectrum| ==> |amp[i]| == |spectrum[i]|
  {
    seq(|spectrum|, i requires 0 <= i < |spectrum| =>
      seq(|spectrum[i]|, j requires 0 <= j < |spectrum[i]| =>
        Modulus(spectrum[i][j], sqrt) / (nt as real / 2.0) / (nx as real / 2.0)))
  }

  /** The amplitude keeps the shape of its input and, for a genuine square root, is never negative. */
  lemma AmplitudeNonNegative(spectrum: seq<seq<Complex>>, nt: nat, nx: nat, sqrt: real -> real)
    requires 0 < nt && 0 < nx && IsSquareRoot(sqrt)
    requires IsShape(spectrum, nt, nx)
    ensures IsShape(Amplitude(spectrum, nt, nx, sqrt), nt, nx)
    ensures forall i, j :: 0 <= i < nt && 0 <= j < nx ==> 0.0 <= Amplitude(spectrum, nt, nx, sqrt)[i][j]
  {
    var amp := Amplitude(spectrum, nt, nx, sqrt);
    forall i, j | 0 <= i < nt && 0 <= j < nx
      ensures 0.0 <= amp[i][j]
    {
      var z := spectrum[i][j];
      SquareSumNonNegative(z.re, z.im);
      QuotientNonNegative(Modulus(z, sqrt), nt as real / 2.0);
      QuotientNonNegative(Modulus(z, sqrt) / (nt as real / 2.0), nx as real / 2.0);
    }
  }

  lemma SquareSumNonNegative(a: real, b: real)
    ensures 0.0 <= a * a + b * b
  {
    SquareNonNegative(a);
    SquareNonNegative(b);
  }

  lemma QuotientNonNegative(a: real, b: real)
    requires 0.0 <= a && 0.0 < b
    ensures 0.0 <= a / b
  {
  }

  /** `amp[t0:t1, x0:x1]`. */
  function Crop(amp: seq<seq<real>>, t0: int, t1: int, x0: int, x1: int): seq<seq<real>>
  {
    var rows := Slice(amp, t0, t1);
    seq(|rows|, i requires 0 <= i < |rows| => Slice(rows[i], x0, x1))
  }

  /** `fftfreq(n, d)[:count] * 2 * np.pi`: a cut within the transform length keeps `count` entries. */
  function Axis(n: nat, d: real, count: int): (r: seq<real>)
    requires 0 < n && d != 0.0
    ensures 0 <= count <= n ==> |r| == count
  {
    var f := Slice(FftFreq(n, d), 0, count);
    seq(|f|, j requires 0 <= j < |f| => f[j] * 2.0 * Pi)
  }

  function Square(x: real): (r: real)
    ensures 0.0 <= r
  {
    SquareNonNegative(x);
    x * x
  }

  /** `1 + gamma * k**2 * debye**2`, the electron-wave factor; at least 1. */
  function ElectronFactor(k: real, p: Plasma): (r: real)
    ensures 1.0 <= r
  {
    ProductOfSquaresNonNegative(k, p.debye);
    1.0 + Gamma * Square(k) * Square(p.debye)
  }

  lemma ProductOfSquaresNonNegative(a: real, b: real)
    ensures 0.0 <= Gamma * Square(a) * Square(b)
  {
    var s, t := Square(a), Square(b);
    assert 0.0 <= s * t;
  }

  /**
   * `wpe * sqrt(1 + gamma k^2 debye^2) / wpe`: the electron plasma wave,
   * normalised; the plasma frequency cancels.
   */
  function ElectronCurve(k: real, p: Plasma, sqrt: real -> real): (r: real)
    requires p.wpe != 0.0
    ensures r == sqrt(ElectronFactor(k, p))
  {
    p.wpe * sqrt(ElectronFactor(k, p)) / p.wpe
  }

  /**
   * `sqrt(gamma k^2 Ti kB / mi + gamma k^2 Te kB / mi / (1 + gamma k^2 debye^2)) / wpe`:
   * the ion sound wave, normalised.
   */
  function IonCurve(k: real, p: Plasma, sqrt: real -> real): (r: real)
    requires p.wpe != 0.0 && p.mi != 0.0
    ensures r * p.wpe == sqrt(IonArgument(k, p))
  {
    sqrt(IonArgument(k, p)) / p.wpe
  }

  /** The ion-acoustic expression under the root; it vanishes at `k = 0`. */
  function IonArgument(k: real, p: Plasma): (r: real)
    requires p.mi != 0.0
    ensures k == 0.0 ==> r == 0.0
  {
    Gamma * Square(k) * p.ti * Boltzmann / p.mi
      + Gamma * Square(k) * p.te * Boltzmann / p.mi / ElectronFactor(k, p)
  }

  /** The electron curve squared is `1 + 3 k^2 debye^2`: 1 at `k = 0`, and never below 1. */
  lemma ElectronCurveSquared(k: real, p: Plasma, sqrt: real -> real)
    requires p.wpe != 0.0 && IsSquareRoot(sqrt)
    ensures var e := ElectronCurve(k, p, sqrt);
            && e * e == 1.0 + 3.0 * k * k * p.debye * p.debye
            && 1.0 <= e
            && (k == 0.0 ==> e == 1.0)
  {
    var f := ElectronFactor(k, p);
    var e := ElectronCurve(k, p, sqrt);
    assert e == sqrt(f);
    assert e * e == f;
    assert f == 1.0 + 3.0 * k * k * p.debye * p.debye;
    RootAtLeastOne(e, f);
    if k == 0.0 {
      assert f == 1.0;
      assert (e - 1.0) * (e + 1.0) == e * e - 1.0;
    }
  }

  /** A non-negative number whose square is at least 1 is at least 1. */
  lemma RootAtLeastOne(e: real, f: real)
    requires 0.0 <= e && e * e == f && 1.0 <= f
    ensures 1.0 <= e
  {
    SquareBelowOne(e);
  }

  lemma SquareBelowOne(e: real)
    ensures 0.0 <= e < 1.0 ==> e * e < 1.0
  {
    if 0.0 < e < 1.0 {
      MultiplyMonotone(e, 1.0, e);
    }
  }

  /** The only number whose square is 0 is 0. */
  lemma RootOfZero(r: real)
    requires r * r == 0.0
    ensures r == 0.0
  {
    CancelSquare(r);
  }

  lemma CancelSquare(r: real)
    ensures r != 0.0 ==> r == (r * r) / r
  {
  }

  /** The ion curve starts at 0 at `k = 0`, and its square is the ion-acoustic relation. */
  lemma IonCurveAtRest(k: real, p: Plasma, sqrt: real -> real)
    requires p.wpe != 0.0 && 0.0 < p.mi && 0.0 <= p.te && 0.0 <= p.ti && IsSquareRoot(sqrt)
    ensures var i := IonCurve(k, p, sqrt);
            && 0.0 <= IonArgument(k, p)
            && i * p.wpe * (i * p.wpe) == IonArgument(k, p)
            && (k == 0.0 ==> i == 0.0)
  {
    var a := IonArgument(k, p);
    IonArgumentNonNegative(k, p);
    var r := sqrt(a);
    assert r * r == a;
    assert IonCurve(k, p, sqrt) * p.wpe == r;
    if k == 0.0 {
      assert a == 0.0;
      RootOfZero(r);
    }
  }

  lemma IonArgumentNonNegative(k: real, p: Plasma)
    requires 0.0 < p.mi && 0.0 <= p.te && 0.0 <= p.ti
    ensures 0.0 <= IonArgument(k, p)
  {
    var g := Gamma * Square(k);
    assert 0.0 <= g;
    ProductNonNegative(g, p.ti);
    ProductNonNegative(g * p.ti, Boltzmann);
    QuotientNonNegative(g * p.ti * Boltzmann, p.mi);
    ProductNonNegative(g, p.te);
    ProductNonNegative(g * p.te, Boltzmann);
    QuotientNonNegative(g * p.te * Boltzmann, p.mi);
    QuotientNonNegative(g * p.te * Boltzmann / p.mi, ElectronFactor(k, p));
  }

  /** `int(tstart*nt)`, `int(tend*nt)`, `int(xstart*nx)`, `int(xend*nx)`. */
  function CropBounds(win: Window, nt: nat, nx: nat): Bounds
  {
    Bounds(CropIndex(win.tstart, nt), CropIndex(win.tend, nt), CropIndex(win.xstart, nx), CropIndex(win.xend, nx))
  }

  /** `int(frac * n)`. */
  function CropIndex(frac: real, n: nat): int
  {
    Int(frac * n as real)
  }

  /** `amp[t_start:t_end, x_start:x_end]`. */
  function Focused(amp: seq<seq<real>>, b: Bounds): seq<seq<real>>
  {
    Crop(amp, b.t0, b.t1, b.x0, b.x1)
  }

  /** The wavenumber axis `k`: as many entries as `x_end - x_start`. */
  function KAxis(nx: nat, dx: real, b: Bounds): (r: seq<real>)
    requires 0 < nx && dx != 0.0
    ensures 0 <= b.x0 <= b.x1 <= nx ==> |r| == b.x1 - b.x0
  {
    Axis(nx, dx, b.x1 - b.x0)
  }

  /** The frequency axis `w / wpe`: as many entries as `t_end - t_start`. */
  function WAxis(nt: nat, dt: real, b: Bounds, p: Plasma): (r: seq<real>)
    requires 0 < nt && dt != 0.0 && p.wpe != 0.0
    ensures 0 <= b.t0 <= b.t1 <= nt ==> |r| == b.t1 - b.t0
  {
    Normalised(Axis(nt, dt, b.t1 - b.t0), p.wpe)
  }

  /** `w / wpe`: every entry divided by the plasma frequency. */
  function Normalised(w: seq<real>, wpe: real): (r: seq<real>)
    requires wpe != 0.0
    ensures |r| == |w| && forall i :: 0 <= i < |w| ==> r[i] * wpe == w[i]
  {
    seq(|w|, i requires 0 <= i < |w| => w[i] / wpe)
  }

  /**
   * The theoretical curves over the wavenumber axis, unless `--notheory` is
   * given: one point of each curve per `k`, and the reference line at 1.
   */
  function Overlay(k: seq<real>, p: Plasma, notheory: bool, sqrt: real -> real): (r: Option<Theory>)
    requires p.wpe != 0.0 && p.mi != 0.0
    ensures r.None? <==> notheory
    ensures r.Some? ==> |r.value.electron| == |k| && |r.value.ion| == |k| && r.value.reference == 1.0
  {
    var electron := seq(|k|, j requires 0 <= j < |k| => ElectronCurve(k[j], p, sqrt));
    var ion := seq(|k|, j requires 0 <= j < |k| => IonCurve(k[j], p, sqrt));
    if notheory then None else Some(Theory(electron, ion, p.wpe / p.wpe))
  }

  /** The number of columns of a map: `data.shape[1]`. */
  function Columns(c: seq<seq<real>>): nat
  {
    if |c| == 0 then 0 else |c[0]|
  }

  /**
   * `pcolormesh(X, Y, C)` with `X, Y = meshgrid(k, w)` accepts the mesh when
   * it has exactly `C`'s shape (the values sit at the cell centres) or one
   * more row and one more column (the values fill the cells between edges).
   */
  predicate MeshFits(c: seq<seq<real>>, nk: nat, nw: nat)
  {
    (nk == Columns(c) && nw == |c|) || (nk == Columns(c) + 1 && nw == |c| + 1)
  }

  /**
   * `plot_dispersion`.  `transform` is `np.fft.fft2(data)` for a field of
   * `nt` time samples by `nx` grid points; `notheory` is the script's
   * `--notheory` flag and `parseInt`, `percentile` stand for `int()` and
   * `np.percentile` as in `plot_2dmap`.
   */
  function PlotDispersion(transform: seq<seq<Complex>>, nt: nat, nx: nat, dx: real, dt: real,
                          vmin: ColorScale.BoundArg, vmax: ColorScale.BoundArg, nsigma: real,
                          win: Window, p: Plasma, notheory: bool, sqrt: real -> real,
                          parseInt: string -> Option<int>,
                          percentile: (seq<real>, int) -> real): (r: Result<DispersionPlot, DispersionError>)
    requires IsShape(transform, nt, nx)
    requires p.wpe != 0.0 && p.mi != 0.0
    ensures nt == 0 || nx == 0 ==> r == Err(EmptyInput)
    ensures 0 < nt && 0 < nx && (dx == 0.0 || dt == 0.0) ==> r == Err(ZeroSpacing)
    ensures 0 < nt && 0 < nx && dx != 0.0 && dt != 0.0 ==>
      var b := CropBounds(win, nt, nx);
      match ColorScale.PlotMap(Focused(Amplitude(FftShift2(transform), nt, nx, sqrt), b), vmin, vmax, nsigma, parseInt, percentile)
      case Err(e) => r == Err(MapError(e))
      case Ok(_) =>
        && (r.Ok? || r == Err(ShapeMismatch))
        && (r == Err(ShapeMismatch) <==>
              !MeshFits(Focused(Amplitude(FftShift2(transform), nt, nx, sqrt), b), |KAxis(nx, dx, b)|, |WAxis(nt, dt, b, p)|))
    ensures r.Ok? ==> 0 < nt && 0 < nx && dx != 0.0 && dt != 0.0
    ensures r.Ok? ==> MeshFits(r.value.amp, |r.value.k|, |r.value.w|) && 0 < |r.value.w|
    ensures r.Ok? ==>
      && r.value.amp == Focused(Amplitude(FftShift2(transform), nt, nx, sqrt), CropBounds(win, nt, nx))
      && r.value.k == KAxis(nx, dx, CropBounds(win, nt, nx))
      && r.value.w == WAxis(nt, dt, CropBounds(win, nt, nx), p)
      && ColorScale.PlotMap(r.value.amp, vmin, vmax, nsigma, parseInt, percentile) == Ok(r.value.scale)
      && r.value.theory == Overlay(r.value.k, p, notheory, sqrt)
      && r.value.ylim == (Min(r.value.w), Max(r.value.w))
  {
    if nt == 0 || nx == 0 then Err(EmptyInput)
    else
      var b := CropBounds(win, nt, nx);
      var focused := Focused(Amplitude(FftShift2(transform), nt, nx, sqrt), b);
      if dx == 0.0 || dt == 0.0 then Err(ZeroSpacing)
      else
        var k, w := KAxis(nx, dx, b), WAxis(nt, dt, b, p);
        match ColorScale.PlotMap(focused, vmin, vmax, nsigma, parseInt, percentile)
        case Err(e) => Err(MapError(e))
        case Ok(scale) =>
          if !MeshFits(focused, |k|, |w|) then Err(ShapeMismatch)
          else Ok(DispersionPlot(focused, k, w, scale, Overlay(k, p, notheory, sqrt), (Min(w), Max(w))))
  }

  /** The crop indices `int(start * n)` and `int(end * n)` of a fraction pair within `[0, 1]`. */
  lemma CropIndices(start: real, end: real, n: nat) returns (lo: int, hi: int)
    requires 0.0 <= start <= end <= 1.0
    ensures lo == CropIndex(start, n) && hi == CropIndex(end, n)
    ensures 0 <= lo <= hi <= n
  {
    var x, y := ScaledFractions(start, end, n);
    lo, hi := TruncateWithin(x, y, n);
  }

  /** Truncating two ordered numbers in `[0, n]` gives two ordered indices in `[0, n]`. */
  lemma TruncateWithin(x: real, y: real, n: nat) returns (i: int, j: int)
    requires 0.0 <= x <= y <= n as real
    ensures i == Int(x) && j == Int(y)
    ensures 0 <= i <= j <= n
  {
    i, j := Int(x), Int(y);
  }

  /** Scaling two ordered fractions in `[0, 1]` by a non-negative count keeps them ordered within `[0, count]`. */
  lemma ScaledFractions(f: real, g: real, n: nat) returns (x: real, y: real)
    requires 0.0 <= f <= g <= 1.0
    ensures x == f * n as real && y == g * n as real
    ensures 0.0 <= x <= y <= n as real
  {
    var m := n as real;
    x, y := f * m, g * m;
    if 0.0 < m {
      MultiplyMonotone(0.0, f, m);
      MultiplyMonotone(f, g, m);
      MultiplyMonotone(g, 1.0, m);
      assert 1.0 * m == m;
    } else {
      assert m == 0.0;
      assert f * m == 0.0 && g * m == 0.0;
    }
  }

  /** For crop fractions within `[0, 1]` the crop indices are ordered and inside the map. */
  lemma CropBoundsWithin(win: Window, nt: nat, nx: nat)
    requires 0.0 <= win.tstart <= win.tend <= 1.0 && 0.0 <= win.xstart <= win.xend <= 1.0
    ensures var b := CropBounds(win, nt, nx);
            0 <= b.t0 <= b.t1 <= nt && 0 <= b.x0 <= b.x1 <= nx
  {
    var t0, t1 := CropIndices(win.tstart, win.tend, nt);
    var x0, x1 := CropIndices(win.xstart, win.xend, nx);
    assert CropBounds(win, nt, nx) == Bounds(t0, t1, x0, x1);
  }

  /**
   * With crop indices inside the map, the map keeps rows `t_start` up to
   * `t_end - 1` and columns `x_start` up to `x_end - 1`, and the axes have
   * one entry per kept column and per kept row.
   */
  lemma CropKeepsWindow(amp: seq<seq<real>>, nt: nat, nx: nat, dx: real, dt: real, b: Bounds, p: Plasma)
    requires IsShape(amp, nt, nx) && 0 < nt && 0 < nx && dx != 0.0 && dt != 0.0 && p.wpe != 0.0
    requires 0 <= b.t0 <= b.t1 <= nt && 0 <= b.x0 <= b.x1 <= nx
    ensures IsShape(Focused(amp, b), b.t1 - b.t0, b.x1 - b.x0)
    ensures forall i, j :: 0 <= i < b.t1 - b.t0 && 0 <= j < b.x1 - b.x0 ==>
              Focused(amp, b)[i][j] == amp[b.t0 + i][b.x0 + j]
    ensures |KAxis(nx, dx, b)| == b.x1 - b.x0 && |WAxis(nt, dt, b, p)| == b.t1 - b.t0
  {
    CropWithin(amp, nt, nx, b.t0, b.t1, b.x0, b.x1);
  }

  /**
   * With crop fractions within `[0, 1]`, `pcolormesh` accepts every non-empty
   * crop: `k` has one entry per kept column and `w` one per kept row.
   */
  lemma InsideWindowFits(amp: seq<seq<real>>, nt: nat, nx: nat, dx: real, dt: real, win: Window, p: Plasma)
    requires IsShape(amp, nt, nx) && 0 < nt && 0 < nx && dx != 0.0 && dt != 0.0 && p.wpe != 0.0
    requires 0.0 <= win.tstart <= win.tend <= 1.0 && 0.0 <= win.xstart <= win.xend <= 1.0
    ensures var b := CropBounds(win, nt, nx);
            0 < |Focused(amp, b)| ==> MeshFits(Focused(amp, b), |KAxis(nx, dx, b)|, |WAxis(nt, dt, b, p)|)
  {
    var b := CropBounds(win, nt, nx);
    CropBoundsWithin(win, nt, nx);
    CropKeepsWindow(amp, nt, nx, dx, dt, b, p);
  }

  /** Cropping with indices inside the map keeps exactly the addressed block. */
  lemma CropWithin(amp: seq<seq<real>>, nt: nat, nx: nat, t0: int, t1: int, x0: int, x1: int)
    requires IsShape(amp, nt, nx) && 0 <= t0 <= t1 <= nt && 0 <= x0 <= x1 <= nx
    ensures IsShape(Crop(amp, t0, t1, x0, x1), t1 - t0, x1 - x0)
    ensures forall i, j :: 0 <= i < t1 - t0 && 0 <= j < x1 - x0 ==>
              Crop(amp, t0, t1, x0, x1)[i][j] == amp[t0 + i][x0 + j]
  {
    var cropped := Crop(amp, t0, t1, x0, x1);
    var rows := Slice(amp, t0, t1);
    assert |rows| == t1 - t0;
    forall i | 0 <= i < t1 - t0
      ensures |cropped[i]| == x1 - x0
      ensures forall j :: 0 <= j < x1 - x0 ==> cropped[i][j] == amp[t0 + i][x0 + j]
    {
      assert rows[i] == amp[t0 + i];
      assert cropped[i] == Slice(rows[i], x0, x1);
    }
  }

  /** The script's default crop: the upper half of both transform axes. */
  const DefaultWindow: Window := Window(0.5, 1.0, 0.5, 1.0)

  /** `int(0.5 * n)` is `n // 2` and `int(1.0 * n)` is `n`. */
  lemma HalfIndex(n: nat)
    ensures CropIndex(0.5, n) == n / 2 && CropIndex(1.0, n) == n
  {
    var q := n / 2;
    assert n == 2 * q + n % 2;
    assert 0.5 * n as real == q as real + (n % 2) as real * 0.5;
  }

  /**
   * An axis taken from the unshifted frequencies, cut at no more than the
   * non-negative bins: entry `j` is `2 pi j / (n d)`, which is also the
   * frequency of the shifted column `n // 2 + j`.
   */
  lemma AxisFromZero(n: nat, d: real, count: int)
    requires 0 < n && d != 0.0 && 0 <= count <= n - n / 2
    ensures |Axis(n, d, count)| == count
    ensures forall j :: 0 <= j < count ==>
              && Axis(n, d, count)[j] == j as real / (n as real * d) * 2.0 * Pi
              && Axis(n, d, count)[j] == FftShift(FftFreq(n, d))[n / 2 + j] * 2.0 * Pi
  {
    var f := FftFreq(n, d);
    forall j | 0 <= j < count
      ensures Axis(n, d, count)[j] == f[j] * 2.0 * Pi
      ensures f[j] == j as real / (n as real * d)
      ensures FftShift(f)[n / 2 + j] == f[j]
    {
      assert FreqBins(n)[j] == j;
    }
  }

  /** Under the default crop the indices are `nt // 2`, `nt`, `nx // 2` and `nx`. */
  lemma DefaultBounds(nt: nat, nx: nat)
    ensures CropBounds(DefaultWindow, nt, nx) == Bounds(nt / 2, nt, nx / 2, nx)
  {
    HalfIndex(nt);
    HalfIndex(nx);
  }

  /** `fftshift` moves cell `(i, j)` of the non-negative frequencies to `(nt // 2 + i, nx // 2 + j)`. */
  lemma ShiftedShape<T>(g: seq<seq<T>>, nt: nat, nx: nat)
    requires IsShape(g, nt, nx)
    ensures IsShape(FftShift2(g), nt, nx)
    ensures forall i, j :: 0 <= i < nt - nt / 2 && 0 <= j < nx - nx / 2 ==>
              FftShift2(g)[nt / 2 + i][nx / 2 + j] == g[i][j]
  {
    forall i | 0 <= i < nt
      ensures |FftShift2(g)[i]| == nx
    {
      ShiftedRow(g, nt, nx, i);
    }
    forall i, j | 0 <= i < nt - nt / 2 && 0 <= j < nx - nx / 2
      ensures FftShift2(g)[nt / 2 + i][nx / 2 + j] == g[i][j]
    {
      ShiftedAt(g, nt, nx, i, j);
    }
  }

  lemma ShiftedRow<T>(g: seq<seq<T>>, nt: nat, nx: nat, i: nat)
    requires IsShape(g, nt, nx) && i < nt
    ensures |FftShift2(g)[i]| == nx
  {
    if i < nt / 2 {
      assert FftShift2(g)[i] == FftShift(g[nt - nt / 2 + i]);
    } else {
      assert FftShift2(g)[nt / 2 + (i - nt / 2)] == FftShift(g[i - nt / 2]);
    }
  }

  lemma ShiftedAt<T>(g: seq<seq<T>>, nt: nat, nx: nat, i: nat, j: nat)
    requires IsShape(g, nt, nx) && i < nt - nt / 2 && j < nx - nx / 2
    ensures |FftShift2(g)| == nt && |FftShift2(g)[nt / 2 + i]| == nx
    ensures FftShift2(g)[nt / 2 + i][nx / 2 + j] == g[i][j]
  {
    assert FftShift2(g)[nt / 2 + i] == FftShift(g[i]);
  }

  /**
   * Under the default crop (whose indices `DefaultBounds` gives) the map
   * shows the non-negative frequencies: its cell `(i, j)` is the scaled
   * modulus of transform cell `(i, j)`, the one `fftfreq` labels `(i, j)`.
   */
  lemma DefaultMap(transform: seq<seq<Complex>>, nt: nat, nx: nat, sqrt: real -> real)
    requires IsShape(transform, nt, nx) && 0 < nt && 0 < nx
    ensures var amp := Focused(Amplitude(FftShift2(transform), nt, nx, sqrt), Bounds(nt / 2, nt, nx / 2, nx));
            && IsShape(amp, nt - nt / 2, nx - nx / 2)
            && forall i, j :: 0 <= i < nt - nt / 2 && 0 <= j < nx - nx / 2 ==>
                 amp[i][j] == Modulus(transform[i][j], sqrt) / (nt as real / 2.0) / (nx as real / 2.0)
  {
    ShiftedShape(transform, nt, nx);
    DefaultCrop(FftShift2(transform), nt, nx, sqrt);
  }

  /**
   * The default crop keeps the block from shifted cell `(nt // 2, nx // 2)`
   * on: its cell `(i, j)` is the amplitude of spectrum cell
   * `(nt // 2 + i, nx // 2 + j)`.
   */
  lemma DefaultCrop(spectrum: seq<seq<Complex>>, nt: nat, nx: nat, sqrt: real -> real)
    requires IsShape(spectrum, nt, nx) && 0 < nt && 0 < nx
    ensures var amp := Focused(Amplitude(spectrum, nt, nx, sqrt), Bounds(nt / 2, nt, nx / 2, nx));
            && IsShape(amp, nt - nt / 2, nx - nx / 2)
            && forall i, j :: 0 <= i < nt - nt / 2 && 0 <= j < nx - nx / 2 ==>
                 amp[i][j] == Modulus(spectrum[nt / 2 + i][nx / 2 + j], sqrt) / (nt as real / 2.0) / (nx as real / 2.0)
  {
    var amp := Focused(Amplitude(spectrum, nt, nx, sqrt), Bounds(nt / 2, nt, nx / 2, nx));
    DefaultCell(spectrum, nt, nx, sqrt, 0, 0);
    forall i | 0 <= i < nt - nt / 2
      ensures |amp[i]| == nx - nx / 2
    {
      DefaultCell(spectrum, nt, nx, sqrt, i, 0);
    }
    forall i, j | 0 <= i < nt - nt / 2 && 0 <= j < nx - nx / 2
      ensures amp[i][j] == Modulus(spectrum[nt / 2 + i][nx / 2 + j], sqrt) / (nt as real / 2.0) / (nx as real / 2.0)
    {
      DefaultCell(spectrum, nt, nx, sqrt, i, j);
    }
  }

  lemma DefaultCell(spectrum: seq<seq<Complex>>, nt: nat, nx: nat, sqrt: real -> real, i: nat, j: nat)
    requires |spectrum| == nt && i < nt - nt / 2 && |spectrum[nt / 2 + i]| == nx && j < nx - nx / 2
    ensures var amp := Focused(Amplitude(spectrum, nt, nx, sqrt), Bounds(nt / 2, nt, nx / 2, nx));
            && |amp| == nt - nt / 2
            && |amp[i]| == nx - nx / 2
            && amp[i][j] == Modulus(spectrum[nt / 2 + i][nx / 2 + j], sqrt) / (nt as real / 2.0) / (nx as real / 2.0)
  {
    AmplitudeCell(spectrum, nt, nx, sqrt, nt / 2 + i, nx / 2 + j);
    CropCell(Amplitude(spectrum, nt, nx, sqrt), nt / 2, nt, nx / 2, nx, i, j);
  }

  /** Cell `(i, j)` of the amplitude map is the scaled modulus of spectrum cell `(i, j)`. */
  lemma AmplitudeCell(spectrum: seq<seq<Complex>>, nt: nat, nx: nat, sqrt: real -> real, i: nat, j: nat)
    requires 0 < nt && 0 < nx && i < |spectrum| && j < |spectrum[i]|
    ensures |Amplitude(spectrum, nt, nx, sqrt)| == |spectrum|
    ensures |Amplitude(spectrum, nt, nx, sqrt)[i]| == |spectrum[i]|
    ensures Amplitude(spectrum, nt, nx, sqrt)[i][j] == Modulus(spectrum[i][j], sqrt) / (nt as real / 2.0) / (nx as real / 2.0)
  {
  }

  /** Cell `(i, j)` of a crop is cell `(t0 + i, x0 + j)` of the map. */
  lemma CropCell(amp: seq<seq<real>>, t0: nat, t1: nat, x0: nat, x1: nat, i: nat, j: nat)
    requires t0 <= t1 <= |amp| && i < t1 - t0 && x0 <= x1 <= |amp[t0 + i]| && j < x1 - x0
    ensures |Crop(amp, t0, t1, x0, x1)| == t1 - t0
    ensures |Crop(amp, t0, t1, x0, x1)[i]| == x1 - x0
    ensures Crop(amp, t0, t1, x0, x1)[i][j] == amp[t0 + i][x0 + j]
  {
    var rows := Slice(amp, t0, t1);
    assert rows[i] == amp[t0 + i];
  }

  /**
   * Under the default crop the wavenumber axis labels column `j` with the
   * frequency of shifted column `nx // 2 + j`, the column the map shows there.
   */
  lemma DefaultColumns(nx: nat, dx: real, b: Bounds)
    requires 0 < nx && dx != 0.0 && b.x0 == nx / 2 && b.x1 == nx
    ensures |KAxis(nx, dx, b)| == nx - nx / 2
    ensures forall j :: 0 <= j < nx - nx / 2 ==>
              KAxis(nx, dx, b)[j] == FftShift(FftFreq(nx, dx))[nx / 2 + j] * 2.0 * Pi
  {
    assert KAxis(nx, dx, b) == Axis(nx, dx, nx - nx / 2);
    AxisFromZero(nx, dx, nx - nx / 2);
  }

  /**
   * Under the default crop the frequency axis labels row `i` with the
   * frequency of shifted row `nt // 2 + i`, normalised by `wpe`.
   */
  lemma DefaultRows(nt: nat, dt: real, b: Bounds, p: Plasma)
    requires 0 < nt && dt != 0.0 && p.wpe != 0.0 && b.t0 == nt / 2 && b.t1 == nt
    ensures |WAxis(nt, dt, b, p)| == nt - nt / 2
    ensures forall i :: 0 <= i < nt - nt / 2 ==>
              WAxis(nt, dt, b, p)[i] == FftShift(FftFreq(nt, dt))[nt / 2 + i] * 2.0 * Pi / p.wpe
  {
    var axis := Axis(nt, dt, nt - nt / 2);
    assert WAxis(nt, dt, b, p) == Normalised(axis, p.wpe);
    AxisFromZero(nt, dt, nt - nt / 2);
  }
}
