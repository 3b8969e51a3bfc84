/**
 * The numpy operations the dispersion script relies on, by their documented
 * definitions: `fftshift`, `fftfreq`, `reshape(-1)`, and the reductions
 * `sum`, `mean`, `var` (population variance), `min` and `max`.
 */
module NumPy {

  /** `arange(lo, hi)` on integers. */
  function Range(lo: int, hi: int): (r: seq<int>)
    requires lo <= hi
    ensures |r| == hi - lo
    ensures forall i :: 0 <= i < |r| ==> r[i] == lo + i
  {
    seq(hi - lo, i requires 0 <= i < hi - lo => lo + i)
  }

  /**
   * `fftshift` along one axis: a cyclic roll by `n // 2`, which moves the
   * zero-frequency entry from index 0 to the centre.
   */
  function FftShift<T>(s: seq<T>): (r: seq<T>)
    ensures |r| == |s|
    ensures forall k :: |s| / 2 <= k < |s| ==> r[k] == s[k - |s| / 2]
    ensures forall k :: 0 <= k < |s| / 2 ==> r[k] == s[k + (|s| - |s| / 2)]
  {
    seq(|s|, j requires 0 <= j < |s| => if j < |s| / 2 then s[|s| - |s| / 2 + j] else s[j - |s| / 2])
  }

  /** `fftshift` of a two-dimensional array: rows are rolled, and so is every row. */
  function FftShift2<T>(g: seq<seq<T>>): (r: seq<seq<T>>)
    ensures |r| == |g|
    ensures forall k :: |g| / 2 <= k < |g| ==> r[k] == FftShift(g[k - |g| / 2])
    ensures forall k :: 0 <= k < |g| / 2 ==> r[k] == FftShift(g[k + (|g| - |g| / 2)])
  {
    FftShift(seq(|g|, i requires 0 <= i < |g| => FftShift(g[i])))
  }

  /**
   * The integer frequency bins of `fftfreq(n)`, laid out as numpy builds
   * them: `0 .. (n-1)//2` followed by `-(n//2) .. -1`.
   */
  function FreqBins(n: nat): (r: seq<int>)
    requires 0 < n
    ensures |r| == n
    ensures forall j :: 0 <= j < n ==> r[j] == if j < n - n / 2 then j else j - n
  {
    Range(0, (n - 1) / 2 + 1) + Range(-(n / 2), 0)
  }

  /** After `fftshift` the frequency bins run upward from `-(n//2)`, one per index. */
  lemma ShiftedBinsAscend(n: nat)
    requires 0 < n
    ensures forall i :: 0 <= i < n ==> FftShift(FreqBins(n))[i] == i - n / 2
  {
    var s, r := FreqBins(n), FftShift(FreqBins(n));
    forall i | 0 <= i < n
      ensures r[i] == i - n / 2
    {
      if i < n / 2 {
        assert r[i] == s[n - n / 2 + i];
      } else {
        assert r[n / 2 + (i - n / 2)] == s[i - n / 2];
      }
    }
  }

  /**
   * `fftfreq(n, d)`: bin `j` times `1 / (n * d)`, the sample frequencies of
   * a length-`n` transform (written as a quotient, equal over the reals).
   */
  function FftFreq(n: nat, d: real): (r: seq<real>)
    requires 0 < n && d != 0.0
    ensures |r| == n
    ensures forall j :: 0 <= j < n ==>
              r[j] == (if j < n - n / 2 then j else j - n) as real / (n as real * d)
  {
    var bins := FreqBins(n);
    seq(n, j requires 0 <= j < n => bins[j] as real / (n as real * d))
  }

  /**
   * After `fftshift` the sample frequencies run upward in steps of
   * `1 / (n * d)` from `-(n//2) / (n * d)`: the zero frequency sits at index
   * `n // 2`.
   */
  lemma ShiftedFrequenciesAscend(n: nat, d: real)
    requires 0 < n && d != 0.0
    ensures forall i :: 0 <= i < n ==> FftShift(FftFreq(n, d))[i] == (i - n / 2) as real / (n as real * d)
  {
    var f, r := FftFreq(n, d), FftShift(FftFreq(n, d));
    var b := FreqBins(n);
    forall i | 0 <= i < n
      ensures r[i] == (i - n / 2) as real / (n as real * d)
    {
      if i < n / 2 {
        assert r[i] == f[n - n / 2 + i];
        assert b[n - n / 2 + i] == i - n / 2;
      } else {
        assert r[n / 2 + (i - n / 2)] == f[i - n / 2];
        assert b[i - n / 2] == i - n / 2;
      }
    }
  }

  /** `reshape(-1)` of a row-major two-dimensional array. */
  function Flatten<T>(g: seq<seq<T>>): (r: seq<T>)
    ensures |r| == 0 <==> forall i :: 0 <= i < |g| ==> |g[i]| == 0
  {
    if |g| == 0 then []
    else
      assert forall i :: 1 <= i < |g| ==> g[i] == g[1..][i - 1];
      g[0] + Flatten(g[1..])
  }

  /** Every cell of the array appears in its flattened form. */
  lemma {:induction false} FlattenHas<T>(g: seq<seq<T>>, i: nat, j: nat)
    requires i < |g| && j < |g[i]|
    ensures g[i][j] in Flatten(g)
  {
    if i > 0 {
      FlattenHas(g[1..], i - 1, j);
      assert g[1..][i - 1] == g[i];
    }
  }

  /** Everything in the flattened form is a cell of the array. */
  lemma {:induction false} FlattenFrom<T>(g: seq<seq<T>>, x: T)
    requires x in Flatten(g)
    ensures exists i, j :: 0 <= i < |g| && 0 <= j < |g[i]| && g[i][j] == x
  {
    if x in g[0] {
      var j :| 0 <= j < |g[0]| && g[0][j] == x;
      assert g[0][j] == x;
    } else {
      FlattenFrom(g[1..], x);
      var i, j :| 0 <= i < |g[1..]| && 0 <= j < |g[1..][i]| && g[1..][i][j] == x;
      assert g[i + 1][j] == x;
    }
  }

  function Sum(s: seq<real>): real
  {
    if |s| == 0 then 0.0 else s[0] + Sum(s[1..])
  }

  /** `mean`: it lies between the minimum and the maximum. */
  function Mean(s: seq<real>): (r: real)
    requires 0 < |s|
    ensures Min(s) <= r <= Max(s)
  {
    ElementsBetween(s);
    AverageBetween(s, Min(s), Max(s));
    Sum(s) / |s| as real
  }

  lemma ElementsBetween(s: seq<real>)
    requires 0 < |s|
    ensures forall i :: 0 <= i < |s| ==> Min(s) <= s[i] <= Max(s)
  {
    forall i | 0 <= i < |s|
      ensures Min(s) <= s[i] <= Max(s)
    {
      assert s[i] in s;
    }
  }

  /** The sum of terms between `lo` and `hi`, over their count, lies between `lo` and `hi`. */
  lemma AverageBetween(s: seq<real>, lo: real, hi: real)
    requires 0 < |s|
    requires forall i :: 0 <= i < |s| ==> lo <= s[i] <= hi
    ensures lo <= Sum(s) / |s| as real <= hi
  {
    var n := |s| as real;
    SumBetween(s, lo, hi);
    DivideBetween(n * lo, Sum(s), n * hi, n);
    Cancel(lo, n);
    Cancel(hi, n);
  }

  /** `var`: the population variance, the mean squared deviation from the mean; never negative. */
  function Variance(s: seq<real>): (r: real)
    requires 0 < |s|
    ensures 0.0 <= r
  {
    var m := Mean(s);
    var sq := seq(|s|, i requires 0 <= i < |s| => (s[i] - m) * (s[i] - m));
    SquaresNonNegative(s, m, sq);
    SumNonNegative(sq);
    DivideBetween(0.0, Sum(sq), Sum(sq), |s| as real);
    Sum(sq) / |s| as real
  }

  lemma SquaresNonNegative(s: seq<real>, m: real, sq: seq<real>)
    requires sq == seq(|s|, i requires 0 <= i < |s| => (s[i] - m) * (s[i] - m))
    ensures forall i :: 0 <= i < |sq| ==> 0.0 <= sq[i]
  {
    forall i | 0 <= i < |sq|
      ensures 0.0 <= sq[i]
    {
      SquareNonNegative(s[i] - m);
    }
  }

  /** `min`. */
  function Min(s: seq<real>): (r: real)
    requires 0 < |s|
    ensures r in s
    ensures forall x :: x in s ==> r <= x
  {
    if |s| == 1 then s[0]
    else
      var m := Min(s[1..]);
      assert s == [s[0]] + s[1..];
      if s[0] <= m then s[0] else m
  }

  /** `max`. */
  function Max(s: seq<real>): (r: real)
    requires 0 < |s|
    ensures r in s
    ensures forall x :: x in s ==> x <= r
  {
    if |s| == 1 then s[0]
    else
      var m := Max(s[1..]);
      assert s == [s[0]] + s[1..];
      if m <= s[0] then s[0] else m
  }

  /** A sum of terms between `lo` and `hi` lies between `n * lo` and `n * hi`. */
  lemma {:induction false} SumBetween(s: seq<real>, lo: real, hi: real)
    requires forall i :: 0 <= i < |s| ==> lo <= s[i] <= hi
    ensures |s| as real * lo <= Sum(s) <= |s| as real * hi
  {
    if |s| > 0 {
      var n := |s[1..]| as real;
      SumBetween(s[1..], lo, hi);
      assert |s| as real * lo == n * lo + lo;
      assert |s| as real * hi == n * hi + hi;
    }
  }

  lemma DivideBetween(a: real, b: real, c: real, n: real)
    requires a <= b <= c && 0.0 < n
    ensures a / n <= b / n <= c / n
  {
  }

  lemma Cancel(a: real, n: real)
    requires 0.0 < n
    ensures n * a / n == a
  {
  }

  /** A sum of non-negative terms is non-negative. */
  lemma {:induction false} SumNonNegative(s: seq<real>)
    requires forall i :: 0 <= i < |s| ==> 0.0 <= s[i]
    ensures 0.0 <= Sum(s)
  {
    if |s| > 0 {
      SumNonNegative(s[1..]);
    }
  }

  lemma SquareNonNegative(x: real)
    ensures 0.0 <= x * x
  {
  }

  lemma ProductNonNegative(a: real, b: real)
    requires 0.0 <= a && 0.0 <= b
    ensures 0.0 <= a * b
  {
  }
}
