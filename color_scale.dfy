/**
 * `plot_2dmap`'s colour-scale bounds.  Each of `vmin` and `vmax` is a number,
 * the text `'fit'`, a text `'tileNN'` naming a percentile, or absent; each is
 * resolved to a number over the flattened map before drawing.
 */
module ColorScale {
  import opened Wrappers
  import opened NumPy

  /** A bound as the caller passes it. */
  datatype BoundArg = Number(value: real) | Text(text: string) | NoArg

  /** A bound after its text has been read. */
  datatype Bound = Fixed(value: real) | Fit | Tile(percent: int) | Absent

  datatype Side = Lower | Upper

  datatype BoundError =
    | PercentNotInteger   // `int(...)` of what is left of `'tileNN'` raised
    | PercentOutOfRange   // `np.percentile` rejects a percentage outside [0, 100]
    | Unrecognized        // any other text is not a bound
    | EmptyMap            // `np.min` / `np.max` of an empty map raised

  datatype Scale = Scale(vmin: real, vmax: real)

  /** `s.replace(pat, '')`: every non-overlapping occurrence, left to right, is deleted. */
  function DeleteAll(s: string, pat: string): (r: string)
    requires 0 < |pat|
    ensures |r| <= |s|
  {
    if |s| < |pat| then s
    else if s[..|pat|] == pat then DeleteAll(s[|pat|..], pat)
    else [s[0]] + DeleteAll(s[1..], pat)
  }

  /** Text without the first letter of the pattern has nothing to delete. */
  lemma {:induction false} DeleteAllAbsent(s: string, pat: string)
    requires 0 < |pat|
    requires forall k :: 0 <= k < |s| ==> s[k] != pat[0]
    ensures DeleteAll(s, pat) == s
  {
    if |s| >= |pat| {
      assert s[..|pat|] != pat by {
        assert s[..|pat|][0] == s[0];
      }
      DeleteAllAbsent(s[1..], pat);
      assert [s[0]] + s[1..] == s;
    }
  }

  /**
   * How `plot_2dmap` reads a bound: `'fit'` is tested first, then the
   * `'tile'` prefix, whose remainder after deleting every `'tile'` must be an
   * integer for `int()` (the parameter `parseInt`).
   */
  function ParseBound(arg: BoundArg, parseInt: string -> Option<int>): (r: Result<Bound, BoundError>)
    ensures r == Ok(Absent) <==> arg == NoArg
    ensures r.Ok? && r.value.Fixed? <==> arg.Number?
    ensures r.Ok? && r.value.Fixed? ==> r.value.value == arg.value
    ensures r == Ok(Fit) <==> arg == Text("fit")
    ensures r.Ok? && r.value.Tile? ==> arg.Text? && |arg.text| >= 4 && arg.text[..4] == "tile"
    ensures r == Err(Unrecognized) <==> arg.Text? && arg.text != "fit" && !(|arg.text| >= 4 && arg.text[..4] == "tile")
  {
    match arg
    case Number(v) => Ok(Fixed(v))
    case NoArg => Ok(Absent)
    case Text(t) =>
      if t == "fit" then Ok(Fit)
      else if |t| >= 4 && t[..4] == "tile" then
        match parseInt(DeleteAll(t, "tile"))
        case Some(p) => Ok(Tile(p))
        case None => Err(PercentNotInteger)
      else Err(Unrecognized)
  }

  /** `'tileNN'` with digits `NN` reads as the percentile `int(NN)`. */
  lemma TileReadsPercent(digits: string, parseInt: string -> Option<int>)
    requires forall k :: 0 <= k < |digits| ==> '0' <= digits[k] <= '9'
    ensures ParseBound(Text("tile" + digits), parseInt) ==
      match parseInt(digits)
      case Some(p) => Ok(Tile(p))
      case None => Err(PercentNotInteger)
  {
    var t := "tile" + digits;
    assert t[..4] == "tile";
    assert t[4..] == digits;
    assert t != "fit";
    DeleteAllAbsent(digits, "tile");
  }

  /**
   * Resolves one bound over the flattened map `vals`.  `percentile` stands
   * for `np.percentile`; `nsigma` widens the default bounds.
   */
  function Resolve(b: Bound, side: Side, vals: seq<real>, nsigma: real,
                   percentile: (seq<real>, int) -> real): (r: Result<real, BoundError>)
    ensures r.Err? ==> |vals| == 0 || b.Tile?
  {
    match b
    case Fixed(v) => Ok(v)
    case Fit =>
      if |vals| == 0 then Err(EmptyMap)
      else Ok(if side == Lower then Min(vals) else Max(vals))
    case Tile(p) =>
      if p < 0 || 100 < p then Err(PercentOutOfRange)
      else if |vals| == 0 then Err(EmptyMap)
      else Ok(percentile(vals, p))
    case Absent =>
      if |vals| == 0 then Err(EmptyMap)
      else
        var mean, variance := Mean(vals), Variance(vals);
        Ok(if side == Lower then mean - variance * nsigma else mean + variance * nsigma)
  }

  /**
   * The colour scale `plot_2dmap` draws with, or the error it raises.  An
   * empty map always fails: the diagnostic `np.min(data)` before drawing raises.
   */
  function PlotMap(data: seq<seq<real>>, vmin: BoundArg, vmax: BoundArg, nsigma: real,
                   parseInt: string -> Option<int>,
                   percentile: (seq<real>, int) -> real): (r: Result<Scale, BoundError>)
    ensures r.Ok? ==> |Flatten(data)| > 0
  {
    var vals := Flatten(data);
    match (ParseBound(vmin, parseInt), ParseBound(vmax, parseInt))
    case (Err(e), _) => Err(e)
    case (_, Err(e)) => Err(e)
    case (Ok(lower), Ok(upper)) =>
      match (Resolve(lower, Lower, vals, nsigma, percentile), Resolve(upper, Upper, vals, nsigma, percentile))
      case (Err(e), _) => Err(e)
      case (_, Err(e)) => Err(e)
      case (Ok(lo), Ok(hi)) =>
        if |vals| == 0 then Err(EmptyMap) else Ok(Scale(lo, hi))
  }

  /**
   * `'fit'` bounds on a non-empty map always resolve, to the map's extremes:
   * they enclose every cell and are attained.
   */
  lemma FitEnclosesMap(data: seq<seq<real>>, nsigma: real,
                       parseInt: string -> Option<int>, percentile: (seq<real>, int) -> real)
    requires 0 < |Flatten(data)|
    ensures PlotMap(data, Text("fit"), Text("fit"), nsigma, parseInt, percentile).Ok?
    ensures var s := PlotMap(data, Text("fit"), Text("fit"), nsigma, parseInt, percentile).value;
            && (forall i, j :: 0 <= i < |data| && 0 <= j < |data[i]| ==> s.vmin <= data[i][j] <= s.vmax)
            && (exists i, j :: 0 <= i < |data| && 0 <= j < |data[i]| && data[i][j] == s.vmin)
            && (exists i, j :: 0 <= i < |data| && 0 <= j < |data[i]| && data[i][j] == s.vmax)
  {
    var vals := Flatten(data);
    var s := PlotMap(data, Text("fit"), Text("fit"), nsigma, parseInt, percentile).value;
    assert s == Scale(Min(vals), Max(vals));
    forall i, j | 0 <= i < |data| && 0 <= j < |data[i]|
      ensures s.vmin <= data[i][j] <= s.vmax
    {
      FlattenHas(data, i, j);
    }
    FlattenFrom(data, s.vmin);
    FlattenFrom(data, s.vmax);
  }

  /**
   * Absent bounds default to `mean -/+ variance * nsigma`: symmetric about the
   * mean, and with `nsigma >= 0` they enclose it.
   */
  lemma DefaultsAroundMean(vals: seq<real>, nsigma: real, percentile: (seq<real>, int) -> real)
    requires 0 < |vals|
    ensures var lo := Resolve(Absent, Lower, vals, nsigma, percentile).value;
            var hi := Resolve(Absent, Upper, vals, nsigma, percentile).value;
            && Mean(vals) - lo == hi - Mean(vals)
            && (0.0 <= nsigma ==> lo <= Mean(vals) <= hi)
  {
    if 0.0 <= nsigma {
      ProductNonNegative(Variance(vals), nsigma);
    }
  }

  /** A `'tileNN'` bound is the `NN`-th percentile of the flattened map, for `NN` in `[0, 100]`. */
  lemma TileIsPercentile(data: seq<seq<real>>, lower: string, upper: string, nsigma: real,
                         parseInt: string -> Option<int>, percentile: (seq<real>, int) -> real)
    requires forall k :: 0 <= k < |lower| ==> '0' <= lower[k] <= '9'
    requires forall k :: 0 <= k < |upper| ==> '0' <= upper[k] <= '9'
    requires parseInt(lower).Some? && 0 <= parseInt(lower).value <= 100
    requires parseInt(upper).Some? && 0 <= parseInt(upper).value <= 100
    requires 0 < |Flatten(data)|
    ensures PlotMap(data, Text("tile" + lower), Text("tile" + upper), nsigma, parseInt, percentile) ==
      Ok(Scale(percentile(Flatten(data), parseInt(lower).value), percentile(Flatten(data), parseInt(upper).value)))
  {
    TileReadsPercent(lower, parseInt);
    TileReadsPercent(upper, parseInt);
  }

  /** A numeric bound passes through unchanged whenever the map is drawn. */
  lemma NumbersPassThrough(data: seq<seq<real>>, lower: real, upper: real, nsigma: real,
                           parseInt: string -> Option<int>, percentile: (seq<real>, int) -> real)
    ensures PlotMap(data, Number(lower), Number(upper), nsigma, parseInt, percentile) ==
      if |Flatten(data)| == 0 then Err(EmptyMap) else Ok(Scale(lower, upper))
  {
  }
}
