/**
 * The "simplex" view of tracer pairs on a periodic domain of length
 * `simSize`: each pair is wrapped into the domain, coloured by how many
 * whole domain lengths separate its two positions, and drawn as one segment
 * or as a segment split across the boundary.  A file of lines is scanned
 * block by block: a `Time` header opens a new figure, and the figure it
 * replaces is saved under the new header's time.
 */
module Simplex {
  import opened Wrappers
  import opened Python
  import NumPy

  datatype Color = Blue | Green | Red

  /** A line drawn from `from` to `to` at the pair's height. */
  datatype Segment = Segment(from: real, to: real)

  /** What one pair puts on the figure: two markers, a colour and the connecting segments. */
  datatype PairDrawing = PairDrawing(local1: real, local2: real, color: Color, segments: seq<Segment>)

  /** One line of a simplex file, already split into its fields. */
  datatype Line = Header(time: int) | Pair(px1: real, px2: real)

  datatype Row = Row(height: int, drawing: PairDrawing)

  /** A figure titled with the time of the header that opened it. */
  datatype Figure = Figure(title: int, rows: seq<Row>)

  /** A figure written to disk, named by `time`. */
  datatype SavedFrame = SavedFrame(time: int, figure: Figure)

  /** The position of `px` inside the domain. */
  function Local(px: real, simSize: real): (r: real)
    requires 0.0 < simSize
    ensures 0.0 <= r < simSize
  {
    DivMod(px, simSize).1
  }

  /** The index of the domain copy that holds `px`. */
  function Cycle(px: real, simSize: real): (c: int)
    requires 0.0 < simSize
    ensures c as real * simSize <= px < c as real * simSize + simSize
  {
    DivMod(px, simSize).0
  }

  /** The number of whole domain lengths between the two positions; never negative. */
  function Cycles(px1: real, px2: real, simSize: real): (n: int)
    requires 0.0 < simSize
    ensures 0 <= n
  {
    CyclesByDistance(Abs(px1 - px2), simSize);
    FloorDiv(Abs(px1 - px2), simSize)
  }

  function ColorOf(dcycles: int): Color
  {
    if dcycles == 0 then Blue
    else if dcycles == 1 then Green
    else Red
  }

  predicate InDomain(x: real, simSize: real)
  {
    0.0 <= x <= simSize
  }

  /** Every marker and every segment end of a drawing lies in `[0, simSize]`. */
  predicate DrawnInDomain(d: PairDrawing, simSize: real)
  {
    InDomain(d.local1, simSize) && InDomain(d.local2, simSize) &&
    forall k :: 0 <= k < |d.segments| ==>
      InDomain(d.segments[k].from, simSize) && InDomain(d.segments[k].to, simSize)
  }

  function Length(g: Segment): real
  {
    Abs(g.to - g.from)
  }

  /** How one pair is drawn. */
  function DrawPair(px1: real, px2: real, simSize: real): (d: PairDrawing)
    requires 0.0 < simSize
    ensures DrawnInDomain(d, simSize)
  {
    var ncycle1, lpx1 := Cycle(px1, simSize), Local(px1, simSize);
    var ncycle2, lpx2 := Cycle(px2, simSize), Local(px2, simSize);
    var color := ColorOf(Cycles(px1, px2, simSize));
    var segments :=
      if ncycle1 == ncycle2 then [Segment(lpx1, lpx2)]
      else if Abs(px1 - px2) > simSize then [Segment(0.0, simSize)]
      else if px1 < px2 then [Segment(lpx1, simSize), Segment(0.0, lpx2)]
      else [Segment(lpx2, simSize), Segment(0.0, lpx1)];
    PairDrawing(lpx1, lpx2, color, segments)
  }

  /** The wrapped position lies in the domain and differs from `px` by whole domain lengths. */
  lemma WrapIntoDomain(px: real, simSize: real)
    requires 0.0 < simSize
    ensures 0.0 <= Local(px, simSize) < simSize
    ensures px == Cycle(px, simSize) as real * simSize + Local(px, simSize)
  {
  }

  /**
   * The colour counts whole domain lengths between the positions: blue when
   * they are less than one length apart, green for one, red for two or more.
   */
  lemma ColorByDistance(px1: real, px2: real, simSize: real)
    requires 0.0 < simSize
    ensures 0 <= Cycles(px1, px2, simSize)
    ensures DrawPair(px1, px2, simSize).color == Blue <==> Cycles(px1, px2, simSize) == 0
    ensures DrawPair(px1, px2, simSize).color == Green <==> Cycles(px1, px2, simSize) == 1
    ensures DrawPair(px1, px2, simSize).color == Red <==> Cycles(px1, px2, simSize) >= 2
    ensures DrawPair(px1, px2, simSize).color == Blue <==> Abs(px1 - px2) < simSize
    ensures DrawPair(px1, px2, simSize).color == Green <==> simSize <= Abs(px1 - px2) < 2.0 * simSize
    ensures DrawPair(px1, px2, simSize).color == Red <==> 2.0 * simSize <= Abs(px1 - px2)
  {
    CyclesByDistance(Abs(px1 - px2), simSize);
  }

  /** The floored quotient of a distance by the domain length, against the distance itself. */
  lemma CyclesByDistance(dist: real, simSize: real)
    requires 0.0 < simSize && 0.0 <= dist
    ensures var q := FloorDiv(dist, simSize);
            && 0 <= q
            && (q == 0 <==> dist < simSize)
            && (q == 1 <==> simSize <= dist < 2.0 * simSize)
            && (q >= 2 <==> 2.0 * simSize <= dist)
  {
    var q := FloorDiv(dist, simSize);
    var t := dist / simSize;
    assert q == t.Floor;
    assert dist == t * simSize;
    ScaledBelow(t, 0.0, simSize, dist);
    ScaledBelow(t, 1.0, simSize, dist);
    ScaledBelow(t, 2.0, simSize, dist);
    assert 1.0 * simSize == simSize;
    assert 0.0 * simSize == 0.0;
  }

  /** For a positive scale, `t < k` exactly when `t * s < k * s`. */
  lemma ScaledBelow(t: real, k: real, s: real, x: real)
    requires 0.0 < s && x == t * s
    ensures t < k <==> x < k * s
  {
    if t < k {
      StrictMultiplyMonotone(t, k, s);
    } else {
      MultiplyMonotone(k, t, s);
    }
  }

  /** Two positions in the same domain copy are joined directly, and are always blue. */
  lemma SameCycleDrawnDirectly(px1: real, px2: real, simSize: real)
    requires 0.0 < simSize
    requires Cycle(px1, simSize) == Cycle(px2, simSize)
    ensures DrawPair(px1, px2, simSize).segments == [Segment(Local(px1, simSize), Local(px2, simSize))]
    ensures Length(Segment(Local(px1, simSize), Local(px2, simSize))) == Abs(px1 - px2)
    ensures DrawPair(px1, px2, simSize).color == Blue
  {
    WrapIntoDomain(px1, simSize);
    WrapIntoDomain(px2, simSize);
    assert px1 - px2 == Local(px1, simSize) - Local(px2, simSize);
    CyclesByDistance(Abs(px1 - px2), simSize);
  }

  /** Positions in different copies more than a domain length apart cover the whole domain and are never blue. */
  lemma FarApartCoversDomain(px1: real, px2: real, simSize: real)
    requires 0.0 < simSize
    requires Cycle(px1, simSize) != Cycle(px2, simSize)
    requires Abs(px1 - px2) > simSize
    ensures DrawPair(px1, px2, simSize).segments == [Segment(0.0, simSize)]
    ensures DrawPair(px1, px2, simSize).color != Blue
  {
    ColorByDistance(px1, px2, simSize);
  }

  /**
   * Positions in different copies at most a domain length apart are drawn
   * across the boundary: from the smaller one's wrapped position up to the
   * end of the domain, then from the start of the domain to the larger one's.
   * The two pieces add up to the distance between the positions.
   */
  lemma NearAcrossBoundarySplit(px1: real, px2: real, simSize: real)
    requires 0.0 < simSize
    requires Cycle(px1, simSize) != Cycle(px2, simSize)
    requires Abs(px1 - px2) <= simSize
    ensures var lo, hi := (if px1 < px2 then px1 else px2), (if px1 < px2 then px2 else px1);
            var segments := DrawPair(px1, px2, simSize).segments;
            segments == [Segment(Local(lo, simSize), simSize), Segment(0.0, Local(hi, simSize))] &&
            Length(segments[0]) + Length(segments[1]) == Abs(px1 - px2)
  {
    var lo, hi := (if px1 < px2 then px1 else px2), (if px1 < px2 then px2 else px1);
    WrapIntoDomain(lo, simSize);
    WrapIntoDomain(hi, simSize);
    NextCopy(lo, hi, simSize);
    var clo, llo, lhi := Cycle(lo, simSize), Local(lo, simSize), Local(hi, simSize);
    assert (clo as real + 1.0) * simSize == clo as real * simSize + simSize;
    assert (simSize - llo) + lhi == hi - lo;
  }

  /**
   * Two positions at most one domain length apart, wrapped into different
   * copies, sit in neighbouring copies.
   */
  lemma NextCopy(lo: real, hi: real, simSize: real)
    requires 0.0 < simSize && lo <= hi && hi - lo <= simSize
    requires Cycle(lo, simSize) != Cycle(hi, simSize)
    ensures Cycle(hi, simSize) == Cycle(lo, simSize) + 1
  {
    var a, b := Cycle(lo, simSize), Cycle(hi, simSize);
    var sa, sb := a as real * simSize, b as real * simSize;
    assert sa <= lo < sa + simSize;
    assert sb <= hi < sb + simSize;
    SameOrLowerCopy(a, b, simSize, lo);
    AtMostNextCopy(b, a, simSize, hi);
  }

  /** A position in copy `m` that lies below the end of copy `k` puts `m` at or below `k`. */
  lemma SameOrLowerCopy(m: int, k: int, simSize: real, x: real)
    requires 0.0 < simSize && m as real * simSize <= x < k as real * simSize + simSize
    ensures m <= k
  {
    if k < m {
      MultiplyMonotone((k + 1) as real, m as real, simSize);
    }
  }

  /** A position in copy `m` that lies below the end of copy `k + 1` puts `m` at most one copy above `k`. */
  lemma AtMostNextCopy(m: int, k: int, simSize: real, x: real)
    requires 0.0 < simSize && m as real * simSize <= x < k as real * simSize + simSize + simSize
    ensures m <= k + 1
  {
    if k + 1 < m {
      MultiplyMonotone((k + 2) as real, m as real, simSize);
    }
  }

  /** The drawing for every pair of a block, numbered upward from height 1. */
  function Rows(block: seq<(real, real)>, simSize: real): seq<Row>
    requires 0.0 < simSize
  {
    if |block| == 0 then []
    else
      var last := block[|block| - 1];
      Rows(block[..|block| - 1], simSize) + [Row(|block|, DrawPair(last.0, last.1, simSize))]
  }

  /** The `k`-th pair of a block (counting from 0) is drawn at height `k + 1`. */
  lemma {:induction false} RowsNumbered(block: seq<(real, real)>, simSize: real)
    requires 0.0 < simSize
    ensures |Rows(block, simSize)| == |block|
    ensures forall k :: 0 <= k < |block| ==>
      Rows(block, simSize)[k] == Row(k + 1, DrawPair(block[k].0, block[k].1, simSize))
  {
    if |block| > 0 {
      var init := block[..|block| - 1];
      RowsNumbered(init, simSize);
      forall k | 0 <= k < |block| - 1
        ensures block[k] == init[k]
      {
      }
    }
  }

  /** The times of the `Time` headers, in order. */
  function HeaderTimes(lines: seq<Line>): seq<int>
  {
    if |lines| == 0 then []
    else (if lines[0].Header? then [lines[0].time] else []) + HeaderTimes(lines[1..])
  }

  /** The pairs of the data lines at the front, up to the first header. */
  function DataRun(lines: seq<Line>): seq<(real, real)>
  {
    if |lines| == 0 || lines[0].Header? then []
    else [(lines[0].px1, lines[0].px2)] + DataRun(lines[1..])
  }

  /** For every header, the pairs of the data lines that follow it up to the next header. */
  function Blocks(lines: seq<Line>): (r: seq<seq<(real, real)>>)
    ensures |r| == |HeaderTimes(lines)|
  {
    if |lines| == 0 then []
    else if lines[0].Header? then [DataRun(lines[1..])] + Blocks(lines[1..])
    else Blocks(lines[1..])
  }

  /** The pairs of all data lines, in order. */
  function Pairs(lines: seq<Line>): seq<(real, real)>
  {
    if |lines| == 0 then []
    else (if lines[0].Pair? then [(lines[0].px1, lines[0].px2)] else []) + Pairs(lines[1..])
  }

  /**
   * The frames a file produces: the block of header `j` is drawn on a figure
   * titled with header `j`'s time and saved under header `j + 1`'s time, so
   * the block of the last header is never saved.
   */
  function Frames(lines: seq<Line>, simSize: real): seq<SavedFrame>
    requires 0.0 < simSize
  {
    SavedFrames(HeaderTimes(lines), Blocks(lines), simSize)
  }

  function SavedFrames(times: seq<int>, blocks: seq<seq<(real, real)>>, simSize: real): seq<SavedFrame>
    requires |times| == |blocks| && 0.0 < simSize
  {
    if |times| == 0 then []
    else
      seq(|times| - 1, j requires 0 <= j < |times| - 1 =>
        SavedFrame(times[j + 1], Figure(times[j], Rows(blocks[j], simSize))))
  }

  /** The figure still open at the end of the file: the last header's block, unsaved. */
  function OpenFigure(lines: seq<Line>, simSize: real): Option<Figure>
    requires 0.0 < simSize
  {
    LastFigure(HeaderTimes(lines), Blocks(lines), simSize)
  }

  function LastFigure(times: seq<int>, blocks: seq<seq<(real, real)>>, simSize: real): Option<Figure>
    requires |times| == |blocks| && 0.0 < simSize
  {
    if |times| == 0 then None
    else Some(Figure(times[|times| - 1], Rows(blocks[|blocks| - 1], simSize)))
  }

  /** The row counter: the data lines since the last header, or since the start of the file. */
  function Counter(lines: seq<Line>): nat
  {
    var blocks := Blocks(lines);
    if |blocks| == 0 then |lines| else |blocks[|blocks| - 1]|
  }

  /**
   * Scans one simplex file.  Returns the frames it saves, in order, and the
   * figure left open (and never saved) when the file ends.  Pairs before the
   * first header are drawn on no figure that is ever saved.
   */
  method ScanFile(lines: seq<Line>, simSize: real) returns (saved: seq<SavedFrame>, fig: Option<Figure>)
    requires 0.0 < simSize
    ensures saved == Frames(lines, simSize)
    ensures fig == OpenFigure(lines, simSize)
  {
    var i := 0;
    fig := None;
    saved := [];
    var n := 0;
    while n < |lines|
      invariant 0 <= n <= |lines|
      invariant saved == Frames(lines[..n], simSize)
      invariant fig == OpenFigure(lines[..n], simSize)
      invariant i == Counter(lines[..n])
    {
      assert lines[..n + 1] == lines[..n] + [lines[n]];
      match lines[n] {
        case Header(time) =>
          FramesAfterHeader(lines[..n], time, simSize);
          i := 0;
          if fig.Some? {
            saved := saved + [SavedFrame(time, fig.value)];
          }
          fig := Some(Figure(time, []));
        case Pair(px1, px2) =>
          FramesAfterPair(lines[..n], px1, px2, simSize);
          i := i + 1;
          var drawing := DrawPair(px1, px2, simSize);
          if fig.Some? {
            fig := Some(Figure(fig.value.title, fig.value.rows + [Row(i, drawing)]));
          }
      }
      n := n + 1;
    }
    assert lines[..n] == lines;
  }

  /** Scans the file of every species in turn; `saved[s]` holds the frames of species `s + 1`. */
  method ScanSpecies(files: seq<seq<Line>>, simSize: real) returns (saved: seq<seq<SavedFrame>>)
    requires 0.0 < simSize
    ensures |saved| == |files|
    ensures forall s :: 0 <= s < |files| ==> saved[s] == Frames(files[s], simSize)
  {
    saved := [];
    var s := 0;
    while s < |files|
      invariant 0 <= s <= |files|
      invariant |saved| == s
      invariant forall t :: 0 <= t < s ==> saved[t] == Frames(files[t], simSize)
    {
      var frames, _ := ScanFile(files[s], simSize);
      saved := saved + [frames];
      s := s + 1;
    }
  }

  /** Every pair after the first header lands in exactly one block, in order. */
  lemma {:induction false} BlocksPartitionPairs(lines: seq<Line>)
    ensures DataRun(lines) + NumPy.Flatten(Blocks(lines)) == Pairs(lines)
  {
    if |lines| > 0 {
      BlocksPartitionPairs(lines[1..]);
      if lines[0].Header? {
        assert DataRun(lines[1..]) + NumPy.Flatten(Blocks(lines[1..])) == Pairs(lines[1..]);
        assert NumPy.Flatten(Blocks(lines)) == DataRun(lines[1..]) + NumPy.Flatten(Blocks(lines[1..]));
      } else {
        assert Blocks(lines) == Blocks(lines[1..]);
      }
    }
  }

  // ---- How the specification functions extend by one line ----

  predicate NoHeader(lines: seq<Line>)
  {
    forall k :: 0 <= k < |lines| ==> lines[k].Pair?
  }

  lemma {:induction false} NoHeaderTimes(lines: seq<Line>)
    ensures NoHeader(lines) <==> |HeaderTimes(lines)| == 0
  {
    if |lines| > 0 {
      NoHeaderTimes(lines[1..]);
      if NoHeader(lines[1..]) && lines[0].Pair? {
        forall k | 0 <= k < |lines|
          ensures lines[k].Pair?
        {
          if k > 0 {
            assert lines[k] == lines[1..][k - 1];
          }
        }
      }
      if NoHeader(lines) {
        forall k | 0 <= k < |lines[1..]|
          ensures lines[1..][k].Pair?
        {
          assert lines[1..][k] == lines[k + 1];
        }
      }
    }
  }

  lemma {:induction false} HeaderTimesAppend(lines: seq<Line>, x: Line)
    ensures HeaderTimes(lines + [x]) == HeaderTimes(lines) + (if x.Header? then [x.time] else [])
  {
    if |lines| > 0 {
      assert (lines + [x])[1..] == lines[1..] + [x];
      HeaderTimesAppend(lines[1..], x);
    } else {
      assert HeaderTimes([x]) == (if x.Header? then [x.time] else []) + HeaderTimes([]);
    }
  }

  lemma {:induction false} DataRunAppend(lines: seq<Line>, x: Line)
    ensures DataRun(lines + [x]) ==
      if NoHeader(lines) && x.Pair? then DataRun(lines) + [(x.px1, x.px2)] else DataRun(lines)
  {
    if |lines| > 0 {
      assert (lines + [x])[1..] == lines[1..] + [x];
      DataRunAppend(lines[1..], x);
      if lines[0].Pair? {
        assert NoHeader(lines) <==> NoHeader(lines[1..]) by {
          if NoHeader(lines[1..]) {
            forall k | 0 <= k < |lines|
              ensures lines[k].Pair?
            {
              if k > 0 {
                assert lines[k] == lines[1..][k - 1];
              }
            }
          }
          if NoHeader(lines) {
            forall k | 0 <= k < |lines[1..]|
              ensures lines[1..][k].Pair?
            {
              assert lines[1..][k] == lines[k + 1];
            }
          }
        }
      } else {
        assert !NoHeader(lines);
      }
    }
  }

  lemma {:induction false} BlocksAppendHeader(lines: seq<Line>, time: int)
    ensures Blocks(lines + [Header(time)]) == Blocks(lines) + [[]]
  {
    var x := Header(time);
    if |lines| > 0 {
      assert (lines + [x])[1..] == lines[1..] + [x];
      BlocksAppendHeader(lines[1..], time);
      if lines[0].Header? {
        DataRunAppend(lines[1..], x);
      }
    } else {
      assert Blocks([x]) == [DataRun([])] + Blocks([]);
    }
  }

  /** Adds `p` to the last block, if there is one. */
  function ExtendLast(blocks: seq<seq<(real, real)>>, p: (real, real)): seq<seq<(real, real)>>
  {
    if |blocks| == 0 then [] else blocks[..|blocks| - 1] + [blocks[|blocks| - 1] + [p]]
  }

  lemma {:induction false} BlocksAppendPair(lines: seq<Line>, px1: real, px2: real)
    ensures Blocks(lines + [Pair(px1, px2)]) == ExtendLast(Blocks(lines), (px1, px2))
  {
    var x := Pair(px1, px2);
    var after := lines + [x];
    if |lines| == 0 {
      assert Blocks([x]) == Blocks([]);
    } else {
      assert after[1..] == lines[1..] + [x];
      BlocksAppendPair(lines[1..], px1, px2);
      if lines[0].Header? {
        HeaderThenPair(lines, px1, px2);
      } else {
        assert Blocks(after) == Blocks(after[1..]);
        assert Blocks(lines) == Blocks(lines[1..]);
      }
    }
  }

  /** The step of `BlocksAppendPair` for a file that starts with a header. */
  lemma HeaderThenPair(lines: seq<Line>, px1: real, px2: real)
    requires |lines| > 0 && lines[0].Header?
    requires Blocks(lines[1..] + [Pair(px1, px2)]) == ExtendLast(Blocks(lines[1..]), (px1, px2))
    ensures Blocks(lines + [Pair(px1, px2)]) == ExtendLast(Blocks(lines), (px1, px2))
  {
    var x := Pair(px1, px2);
    var after := lines + [x];
    assert after[0] == lines[0] && after[1..] == lines[1..] + [x];
    var rest, run := Blocks(lines[1..]), DataRun(lines[1..]);
    DataRunAppend(lines[1..], x);
    NoHeaderTimes(lines[1..]);
    assert Blocks(lines) == [run] + rest;
    assert Blocks(after) == [DataRun(lines[1..] + [x])] + ExtendLast(rest, (px1, px2));
    ExtendLastCons(run, rest, (px1, px2));
  }

  /** Extending the last of `[first] + rest` extends `first` when `rest` is empty, and `rest` otherwise. */
  lemma ExtendLastCons(first: seq<(real, real)>, rest: seq<seq<(real, real)>>, p: (real, real))
    ensures ExtendLast([first] + rest, p) ==
              if |rest| == 0 then [first + [p]] else [first] + ExtendLast(rest, p)
  {
    if |rest| > 0 {
      assert ([first] + rest)[..|rest|] == [first] + rest[..|rest| - 1];
    }
  }

  lemma RowsAppend(block: seq<(real, real)>, px1: real, px2: real, simSize: real)
    requires 0.0 < simSize
    ensures Rows(block + [(px1, px2)], simSize) ==
      Rows(block, simSize) + [Row(|block| + 1, DrawPair(px1, px2, simSize))]
  {
    assert (block + [(px1, px2)])[..|block|] == block;
  }

  /** A new header saves the open figure, if any, under the header's time. */
  lemma SavedFramesAppend(times: seq<int>, blocks: seq<seq<(real, real)>>, time: int, simSize: real)
    requires |times| == |blocks| && 0.0 < simSize
    ensures SavedFrames(times + [time], blocks + [[]], simSize) ==
              match LastFigure(times, blocks, simSize)
              case None => SavedFrames(times, blocks, simSize)
              case Some(f) => SavedFrames(times, blocks, simSize) + [SavedFrame(time, f)]
  {
    if |times| > 0 {
      var f := SavedFrames(times + [time], blocks + [[]], simSize);
      var g := SavedFrames(times, blocks, simSize) + [SavedFrame(time, LastFigure(times, blocks, simSize).value)];
      assert |f| == |g|;
      forall j | 0 <= j < |f|
        ensures f[j] == g[j]
      {
        if j < |times| - 1 {
          assert (times + [time])[j + 1] == times[j + 1];
          assert (blocks + [[]])[j] == blocks[j];
        }
      }
    }
  }

  /** A pair changes only the last block, which no saved frame holds. */
  lemma SavedFramesExtendLast(times: seq<int>, blocks: seq<seq<(real, real)>>, p: (real, real), simSize: real)
    requires |times| == |blocks| && 0.0 < simSize
    ensures |ExtendLast(blocks, p)| == |blocks|
    ensures SavedFrames(times, ExtendLast(blocks, p), simSize) == SavedFrames(times, blocks, simSize)
  {
    var extended := ExtendLast(blocks, p);
    if |times| > 0 {
      forall j | 0 <= j < |times| - 1
        ensures extended[j] == blocks[j]
      {
      }
    }
  }

  /** A pair adds a row to the open figure, if any, at the next height. */
  lemma LastFigureExtendLast(times: seq<int>, blocks: seq<seq<(real, real)>>, px1: real, px2: real, simSize: real)
    requires |times| == |blocks| && 0.0 < simSize
    ensures |ExtendLast(blocks, (px1, px2))| == |blocks|
    ensures LastFigure(times, ExtendLast(blocks, (px1, px2)), simSize) ==
              match LastFigure(times, blocks, simSize)
              case None => None
              case Some(f) =>
                Some(Figure(f.title, f.rows + [Row(|blocks[|blocks| - 1]| + 1, DrawPair(px1, px2, simSize))]))
  {
    if |times| > 0 {
      var last := blocks[|blocks| - 1];
      assert ExtendLast(blocks, (px1, px2))[|blocks| - 1] == last + [(px1, px2)];
      RowsAppend(last, px1, px2, simSize);
    }
  }

  lemma FramesAfterHeader(lines: seq<Line>, time: int, simSize: real)
    requires 0.0 < simSize
    ensures var after := lines + [Header(time)];
            && Frames(after, simSize) ==
                 (match OpenFigure(lines, simSize)
                  case None => Frames(lines, simSize)
                  case Some(f) => Frames(lines, simSize) + [SavedFrame(time, f)])
            && OpenFigure(after, simSize) == Some(Figure(time, []))
            && Counter(after) == 0
  {
    HeaderTimesAppend(lines, Header(time));
    BlocksAppendHeader(lines, time);
    SavedFramesAppend(HeaderTimes(lines), Blocks(lines), time, simSize);
    assert Rows([], simSize) == [];
  }

  lemma FramesAfterPair(lines: seq<Line>, px1: real, px2: real, simSize: real)
    requires 0.0 < simSize
    ensures var after := lines + [Pair(px1, px2)];
            && Frames(after, simSize) == Frames(lines, simSize)
            && OpenFigure(after, simSize) ==
                 (match OpenFigure(lines, simSize)
                  case None => None
                  case Some(f) => Some(Figure(f.title, f.rows + [Row(Counter(lines) + 1, DrawPair(px1, px2, simSize))])))
            && Counter(after) == Counter(lines) + 1
  {
    var x := Pair(px1, px2);
    HeaderTimesAppend(lines, x);
    BlocksAppendPair(lines, px1, px2);
    NoHeaderTimes(lines);
    var times, blocks := HeaderTimes(lines), Blocks(lines);
    SavedFramesExtendLast(times, blocks, (px1, px2), simSize);
    LastFigureExtendLast(times, blocks, px1, px2, simSize);
  }
}
