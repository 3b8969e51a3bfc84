/**
 * The Python built-ins the scripts lean on, stated over exact reals:
 * `divmod` and `//` on floats, `abs`, `int()` of a float, and slicing
 * `s[a:b]` of a sequence.  Float rounding is not modelled.
 */
module Python {

  /** `abs(x)`. */
  function Abs(x: real): (r: real)
    ensures 0.0 <= r && (r == x || r == -x)
  {
    if x < 0.0 then -x else x
  }

  /**
   * `divmod(x, y)` for floats with a positive divisor: the quotient is
   * floored and the remainder lies in `[0, y)`, which fixes both uniquely.
   */
  function DivMod(x: real, y: real): (r: (int, real))
    requires 0.0 < y
    ensures 0.0 <= r.1 < y
    ensures x == r.0 as real * y + r.1
  {
    var q := (x / y).Floor;
    FloorBetween(x, y, q);
    (q, x - q as real * y)
  }

  /** `x // y` for floats with a positive divisor. */
  function FloorDiv(x: real, y: real): (q: int)
    requires 0.0 < y
    ensures q as real * y <= x < (q as real + 1.0) * y
  {
    var q := (x / y).Floor;
    FloorBetween(x, y, q);
    q
  }

  /** The floor of `x / y` brackets `x` between two multiples of `y`. */
  lemma FloorBetween(x: real, y: real, q: int)
    requires 0.0 < y && q == (x / y).Floor
    ensures q as real * y <= x < (q as real + 1.0) * y
  {
    var t := x / y;
    assert x == t * y;
    assert q as real <= t < q as real + 1.0;
    MultiplyMonotone(q as real, t, y);
    StrictMultiplyMonotone(t, q as real + 1.0, y);
    assert t * y < (q as real + 1.0) * y;
    assert x < (q as real + 1.0) * y;
    assert q as real * y <= x;
  }

  lemma MultiplyMonotone(a: real, b: real, y: real)
    requires a <= b && 0.0 < y
    ensures a * y <= b * y
  {
  }

  lemma StrictMultiplyMonotone(a: real, b: real, y: real)
    requires a < b && 0.0 < y
    ensures a * y < b * y
  {
  }

  /** `int(x)` of a float: truncation toward zero. */
  function Int(x: real): (r: int)
    ensures 0.0 <= x ==> 0 <= r && r as real <= x < r as real + 1.0
    ensures x < 0.0 ==> r <= 0 && r as real - 1.0 < x <= r as real
  {
    if 0.0 <= x then x.Floor else -((-x).Floor)
  }

  /**
   * Where the bound `i` of a slice lands in a sequence of length `n`: a
   * negative bound counts from the end, and the result is clipped to `[0, n]`.
   */
  function SliceBound(i: int, n: nat): (r: nat)
    ensures r <= n
    ensures 0 <= i <= n ==> r == i
    ensures i < 0 && 0 <= n + i ==> r == n + i
    ensures i < 0 && n + i < 0 ==> r == 0
    ensures n < i ==> r == n
  {
    if i < 0 then (if n + i < 0 then 0 else n + i)
    else if n < i then n
    else i
  }

  /** `s[a:b]`: the elements from the lower bound up to, not including, the upper one. */
  function Slice<T>(s: seq<T>, a: int, b: int): (r: seq<T>)
    ensures var lo, hi := SliceBound(a, |s|), SliceBound(b, |s|);
            |r| == (if lo <= hi then hi - lo else 0) &&
            forall i :: 0 <= i < |r| ==> r[i] == s[lo + i]
  {
    var lo, hi := SliceBound(a, |s|), SliceBound(b, |s|);
    if lo < hi then s[lo..hi] else []
  }

  /** With bounds inside the sequence, a Python slice is Dafny's subsequence. */
  lemma SliceWithin<T>(s: seq<T>, a: int, b: int)
    requires 0 <= a <= b <= |s|
    ensures Slice(s, a, b) == s[a..b]
  {
  }
}
