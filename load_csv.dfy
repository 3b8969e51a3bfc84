/**
 * `load_csv`: converts a table read from a CSV file to floats.  When the
 * direct conversion fails, every cell whose whole text is a run of 10 to 19
 * `*` characters (the simulation's overflow marker) is replaced by 0, one run
 * length at a time, and the conversion is tried once more; if it fails again
 * the load fails.
 */
module LoadCsv {
  import opened Wrappers

  /** A cell as the CSV reader hands it over: already a number, or text. */
  datatype Cell = Num(value: real) | Text(text: string)

  type Table = seq<seq<Cell>>

  /** The converted values, and whether the overflow warning was printed. */
  datatype Loaded = Loaded(values: seq<seq<real>>, warned: bool)

  /** `astype(float)` raised on a cell that is still not a number. */
  datatype LoadError = NotNumeric

  /** `'*' * n`. */
  function Stars(n: nat): (r: string)
    ensures |r| == n && forall k :: 0 <= k < n ==> r[k] == '*'
  {
    if n == 0 then [] else Stars(n - 1) + ['*']
  }

  predicate AllStars(s: string)
  {
    forall k :: 0 <= k < |s| ==> s[k] == '*'
  }

  /** A cell whose whole text is a run of `lo` up to, not including, `hi` stars. */
  predicate StarRun(c: Cell, lo: nat, hi: nat)
  {
    c.Text? && lo <= |c.text| < hi && AllStars(c.text)
  }

  /** `DataFrame.replace(pattern, 0)`: a string pattern matches whole text cells only. */
  function Replace(df: Table, pattern: string): (r: Table)
    ensures |r| == |df|
    ensures forall i :: 0 <= i < |df| ==> |r[i]| == |df[i]|
    ensures forall i, j :: 0 <= i < |df| && 0 <= j < |df[i]| ==>
      r[i][j] == if df[i][j] == Text(pattern) then Num(0.0) else df[i][j]
  {
    seq(|df|, i requires 0 <= i < |df| =>
      seq(|df[i]|, j requires 0 <= j < |df[i]| =>
        if df[i][j] == Text(pattern) then Num(0.0) else df[i][j]))
  }

  /** The cleanup as a whole, cell by cell: overflow markers become 0. */
  function Clean(c: Cell): Cell
  {
    if StarRun(c, 10, 20) then Num(0.0) else c
  }

  function CleanTable(df: Table): Table
  {
    seq(|df|, i requires 0 <= i < |df| => seq(|df[i]|, j requires 0 <= j < |df[i]| => Clean(df[i][j])))
  }

  /** The table after the replacements for run lengths 10 up to, not including, `n`. */
  function CleanedBelow(df: Table, n: nat): Table
  {
    seq(|df|, i requires 0 <= i < |df| =>
      seq(|df[i]|, j requires 0 <= j < |df[i]| =>
        if StarRun(df[i][j], 10, n) then Num(0.0) else df[i][j]))
  }

  /** `float(c)`: numbers pass, text goes through the float parser. */
  function ToFloat(c: Cell, parse: string -> Option<real>): Option<real>
  {
    match c
    case Num(v) => Some(v)
    case Text(t) => parse(t)
  }

  /** `astype(float)` succeeds. */
  predicate Converts(df: Table, parse: string -> Option<real>)
  {
    forall i, j :: 0 <= i < |df| && 0 <= j < |df[i]| ==> ToFloat(df[i][j], parse).Some?
  }

  /** `astype(float).values`. */
  function Values(df: Table, parse: string -> Option<real>): seq<seq<real>>
    requires Converts(df, parse)
  {
    seq(|df|, i requires 0 <= i < |df| =>
      seq(|df[i]|, j requires 0 <= j < |df[i]| => ToFloat(df[i][j], parse).value))
  }

  /**
   * `load_csv` on a table already read from the file.  The cleanup runs
   * only when the direct conversion fails.
   */
  method Load(df: Table, parse: string -> Option<real>) returns (r: Result<Loaded, LoadError>)
    ensures Converts(df, parse) ==> r == Ok(Loaded(Values(df, parse), false))
    ensures !Converts(df, parse) && Converts(CleanTable(df), parse) ==>
      r == Ok(Loaded(Values(CleanTable(df), parse), true))
    ensures !Converts(df, parse) && !Converts(CleanTable(df), parse) ==> r == Err(NotNumeric)
  {
    if Converts(df, parse) {
      return Ok(Loaded(Values(df, parse), false));
    }
    var cleaned := df;
    SameTable(df, CleanedBelow(df, 10));
    for n := 10 to 20
      invariant cleaned == CleanedBelow(df, n)
    {
      ReplaceNext(df, n);
      cleaned := Replace(cleaned, Stars(n));
    }
    SameTable(cleaned, CleanTable(df));
    if Converts(cleaned, parse) {
      r := Ok(Loaded(Values(cleaned, parse), true));
    } else {
      r := Err(NotNumeric);
    }
  }

  /** Two tables with the same shape and the same cells are equal. */
  lemma SameTable(a: Table, b: Table)
    requires |a| == |b|
    requires forall i :: 0 <= i < |a| ==> |a[i]| == |b[i]|
    requires forall i, j :: 0 <= i < |a| && 0 <= j < |a[i]| ==> a[i][j] == b[i][j]
    ensures a == b
  {
    forall i | 0 <= i < |a|
      ensures a[i] == b[i]
    {
    }
  }

  /** Replacing the run of length `n` extends the cleanup by one run length. */
  lemma ReplaceNext(df: Table, n: nat)
    requires 10 <= n
    ensures Replace(CleanedBelow(df, n), Stars(n)) == CleanedBelow(df, n + 1)
  {
    var before, after := CleanedBelow(df, n), CleanedBelow(df, n + 1);
    var r := Replace(before, Stars(n));
    forall i, j | 0 <= i < |df| && 0 <= j < |df[i]|
      ensures r[i][j] == after[i][j]
    {
      var c := df[i][j];
      if c.Text? && c.text == Stars(n) {
        assert StarRun(c, 10, n + 1);
      }
      if StarRun(c, n, n + 1) {
        assert c.text == Stars(n);
      }
    }
    SameTable(r, after);
  }

  /**
   * The cleanup changes a cell exactly when its whole text is a run of 10 to
   * 19 stars; shorter and longer runs, other text and numbers stay as they are.
   */
  lemma CleanChangesOnlyMarkers(c: Cell)
    ensures Clean(c) != c <==> c.Text? && 10 <= |c.text| <= 19 && AllStars(c.text)
    ensures Clean(c) != c ==> Clean(c) == Num(0.0)
  {
  }

  /** Running the cleanup twice changes nothing more. */
  lemma CleanIdempotent(df: Table)
    ensures CleanTable(CleanTable(df)) == CleanTable(df)
  {
    SameTable(CleanTable(CleanTable(df)), CleanTable(df));
  }

  /** The cleanup never makes a numeric table non-numeric. */
  lemma CleanKeepsNumeric(df: Table, parse: string -> Option<real>)
    ensures Converts(df, parse) ==> Converts(CleanTable(df), parse)
  {
    var cleaned := CleanTable(df);
    if Converts(df, parse) {
      forall i, j | 0 <= i < |cleaned| && 0 <= j < |cleaned[i]|
        ensures ToFloat(cleaned[i][j], parse).Some?
      {
        assert ToFloat(df[i][j], parse).Some?;
      }
    }
  }
}
