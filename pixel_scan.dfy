/** Counting over pixel windows, as the detectors' scanning loops count: how
    many pixels of a row or of a band of rows satisfy a test, how many rows
    satisfy a row test, the coordinate sums a centroid needs, and the
    longest run of consecutive rows that satisfy a test. */
module PixelScan {
  /** Number of x in [x0, x1) with f(x, y). */
  function CountRow(f: (int, int) -> bool, y: int, x0: int, x1: int): (n: nat)
    ensures n <= if x1 > x0 then x1 - x0 else 0
    decreases x1 - x0
  {
    if x1 <= x0 then 0 else CountRow(f, y, x0, x1 - 1) + (if f(x1 - 1, y) then 1 else 0)
  }

  /** Number of (x, y) in [x0, x1) × [y0, y1) with f(x, y). */
  function CountBand(f: (int, int) -> bool, y0: int, y1: int, x0: int, x1: int): nat
    decreases y1 - y0
  {
    if y1 <= y0 then 0 else CountBand(f, y0, y1 - 1, x0, x1) + CountRow(f, y1 - 1, x0, x1)
  }

  /** Number of y in [y0, y1) with g(y). */
  function CountLines(g: int -> bool, y0: int, y1: int): (n: nat)
    ensures n <= if y1 > y0 then y1 - y0 else 0
    decreases y1 - y0
  {
    if y1 <= y0 then 0 else CountLines(g, y0, y1 - 1) + (if g(y1 - 1) then 1 else 0)
  }

  /** Pixels in the window: zero when it is empty in either direction. */
  function Cells(y0: int, y1: int, x0: int, x1: int): nat {
    if y1 <= y0 || x1 <= x0 then 0 else (y1 - y0) * (x1 - x0)
  }

  /** Three tests that split every pixel of a row three ways count the whole
      row between them. */
  lemma {:induction false} CountRowSplit(f: (int, int) -> bool, g: (int, int) -> bool, h: (int, int) -> bool,
                                         y: int, x0: int, x1: int)
    requires forall x :: x0 <= x < x1 ==> (if f(x, y) then 1 else 0) + (if g(x, y) then 1 else 0) + (if h(x, y) then 1 else 0) == 1
    ensures CountRow(f, y, x0, x1) + CountRow(g, y, x0, x1) + CountRow(h, y, x0, x1) == if x1 > x0 then x1 - x0 else 0
    decreases x1 - x0
  {
    if x1 > x0 {
      CountRowSplit(f, g, h, y, x0, x1 - 1);
    }
  }

  /** The same for a band of rows: the three counts add up to its cells. */
  lemma {:induction false} CountBandSplit(f: (int, int) -> bool, g: (int, int) -> bool, h: (int, int) -> bool,
                                          y0: int, y1: int, x0: int, x1: int)
    requires forall x, y :: y0 <= y < y1 && x0 <= x < x1 ==>
      (if f(x, y) then 1 else 0) + (if g(x, y) then 1 else 0) + (if h(x, y) then 1 else 0) == 1
    ensures CountBand(f, y0, y1, x0, x1) + CountBand(g, y0, y1, x0, x1) + CountBand(h, y0, y1, x0, x1) == Cells(y0, y1, x0, x1)
    decreases y1 - y0
  {
    if y1 > y0 {
      CountBandSplit(f, g, h, y0, y1 - 1, x0, x1);
      CountRowSplit(f, g, h, y1 - 1, x0, x1);
      if x1 > x0 && y1 - 1 > y0 {
        assert (y1 - 1 - y0) * (x1 - x0) + (x1 - x0) == (y1 - y0) * (x1 - x0);
      }
    }
  }

  /** A test that holds nowhere in a row counts nothing there. */
  lemma {:induction false} CountRowNone(f: (int, int) -> bool, y: int, x0: int, x1: int)
    requires forall x :: x0 <= x < x1 ==> !f(x, y)
    ensures CountRow(f, y, x0, x1) == 0
    decreases x1 - x0
  {
    if x1 > x0 {
      CountRowNone(f, y, x0, x1 - 1);
    }
  }

  /** A test that holds nowhere in a band counts nothing there. */
  lemma {:induction false} CountBandNone(f: (int, int) -> bool, y0: int, y1: int, x0: int, x1: int)
    requires forall x, y :: y0 <= y < y1 && x0 <= x < x1 ==> !f(x, y)
    ensures CountBand(f, y0, y1, x0, x1) == 0
    decreases y1 - y0
  {
    if y1 > y0 {
      CountBandNone(f, y0, y1 - 1, x0, x1);
      CountRowNone(f, y1 - 1, x0, x1);
    }
  }

  /** A test implied by another counts at least as many pixels. */
  lemma {:induction false} CountRowMono(f: (int, int) -> bool, g: (int, int) -> bool, y: int, x0: int, x1: int)
    requires forall x :: x0 <= x < x1 && f(x, y) ==> g(x, y)
    ensures CountRow(f, y, x0, x1) <= CountRow(g, y, x0, x1)
    decreases x1 - x0
  {
    if x1 > x0 {
      CountRowMono(f, g, y, x0, x1 - 1);
    }
  }

  lemma {:induction false} CountBandMono(f: (int, int) -> bool, g: (int, int) -> bool, y0: int, y1: int, x0: int, x1: int)
    requires forall x, y :: y0 <= y < y1 && x0 <= x < x1 && f(x, y) ==> g(x, y)
    ensures CountBand(f, y0, y1, x0, x1) <= CountBand(g, y0, y1, x0, x1)
    decreases y1 - y0
  {
    if y1 > y0 {
      CountBandMono(f, g, y0, y1 - 1, x0, x1);
      CountRowMono(f, g, y1 - 1, x0, x1);
    }
  }

  /** A count is positive exactly when the test holds somewhere. */
  lemma {:induction false} CountLinesPositive(g: int -> bool, y0: int, y1: int)
    ensures CountLines(g, y0, y1) > 0 <==> exists y :: y0 <= y < y1 && g(y)
    decreases y1 - y0
  {
    if y1 > y0 {
      CountLinesPositive(g, y0, y1 - 1);
      if CountLines(g, y0, y1 - 1) > 0 {
        var y :| y0 <= y < y1 - 1 && g(y);
        assert y0 <= y < y1 && g(y);
      }
    }
  }

  // ---------------------------------------------------------------------
  // Coordinate sums

  /** Sum of x over the x in [x0, x1) with f(x, y). */
  function SumRowX(f: (int, int) -> bool, y: int, x0: int, x1: int): int
    decreases x1 - x0
  {
    if x1 <= x0 then 0 else SumRowX(f, y, x0, x1 - 1) + (if f(x1 - 1, y) then x1 - 1 else 0)
  }

  /** Sum of x over the band's pixels with f. */
  function SumBandX(f: (int, int) -> bool, y0: int, y1: int, x0: int, x1: int): int
    decreases y1 - y0
  {
    if y1 <= y0 then 0 else SumBandX(f, y0, y1 - 1, x0, x1) + SumRowX(f, y1 - 1, x0, x1)
  }

  /** Sum of y over the band's pixels with f. */
  function SumBandY(f: (int, int) -> bool, y0: int, y1: int, x0: int, x1: int): int
    decreases y1 - y0
  {
    if y1 <= y0 then 0 else SumBandY(f, y0, y1 - 1, x0, x1) + (y1 - 1) * CountRow(f, y1 - 1, x0, x1)
  }

  /** Each counted x lies in [x0, x1 - 1], so their sum lies between x0 and
      x1 - 1 times their number. */
  lemma {:induction false} SumRowXBounds(f: (int, int) -> bool, y: int, x0: int, x1: int)
    ensures x0 * CountRow(f, y, x0, x1) <= SumRowX(f, y, x0, x1) <= (x1 - 1) * CountRow(f, y, x0, x1)
    decreases x1 - x0
  {
    if x1 > x0 {
      SumRowXBounds(f, y, x0, x1 - 1);
      var n := CountRow(f, y, x0, x1 - 1);
      Distribute(x1 - 2, n);
      if f(x1 - 1, y) {
        Distribute(x0, n);
        Distribute(x1 - 1, n);
      }
    }
  }

  /** The band version: the x sum lies between x0 and x1 - 1 times the
      count, the y sum between y0 and y1 - 1 times the count. */
  lemma {:induction false} SumBandBounds(f: (int, int) -> bool, y0: int, y1: int, x0: int, x1: int)
    ensures x0 * CountBand(f, y0, y1, x0, x1) <= SumBandX(f, y0, y1, x0, x1) <= (x1 - 1) * CountBand(f, y0, y1, x0, x1)
    ensures y0 * CountBand(f, y0, y1, x0, x1) <= SumBandY(f, y0, y1, x0, x1) <= (y1 - 1) * CountBand(f, y0, y1, x0, x1)
    decreases y1 - y0
  {
    if y1 > y0 {
      SumBandBounds(f, y0, y1 - 1, x0, x1);
      SumRowXBounds(f, y1 - 1, x0, x1);
      var n, r := CountBand(f, y0, y1 - 1, x0, x1), CountRow(f, y1 - 1, x0, x1);
      AddCounts(x0, n, r);
      AddCounts(x1 - 1, n, r);
      AddCounts(y0, n, r);
      AddCounts(y1 - 1, n, r);
      Distribute(y1 - 2, n);
      LeMul(y0, y1 - 1, r);
    }
  }

  lemma Distribute(a: int, n: int)
    ensures a * (n + 1) == a * n + a
    ensures (a + 1) * n == a * n + n
  {
  }

  lemma AddCounts(a: int, n: int, r: int)
    ensures a * (n + r) == a * n + a * r
  {
  }

  lemma LeMul(a: int, b: int, r: nat)
    requires a <= b
    ensures a * r <= b * r
  {
  }

  // ---------------------------------------------------------------------
  // Runs of rows

  /** Length of the run of consecutive rows with g that ends just before y,
      counting from y0 (the source's `consecutiveBlackRows`). */
  function RunEnding(g: int -> bool, y0: int, y: int): nat
    decreases y - y0
  {
    if y <= y0 then 0 else if g(y - 1) then RunEnding(g, y0, y - 1) + 1 else 0
  }

  /** The longest run seen among the rows [y0, y) (`maxConsecutiveBlack`). */
  function MaxRun(g: int -> bool, y0: int, y: int): nat
    decreases y - y0
  {
    if y <= y0 then 0
    else if g(y - 1) then (if MaxRun(g, y0, y - 1) < RunEnding(g, y0, y) then RunEnding(g, y0, y) else MaxRun(g, y0, y - 1))
    else MaxRun(g, y0, y - 1)
  }

  /** Three consecutive rows with g, starting at k. */
  predicate Three(g: int -> bool, k: int) {
    g(k) && g(k + 1) && g(k + 2)
  }

  /** A run ending before y is as long as the rows before y all satisfy g. */
  lemma {:induction false} RunEndingMeans(g: int -> bool, y0: int, y: int, n: nat)
    requires n <= y - y0
    ensures RunEnding(g, y0, y) >= n <==> forall j :: y - n <= j < y ==> g(j)
    decreases y - y0
  {
    if n > 0 {
      if g(y - 1) {
        RunEndingMeans(g, y0, y - 1, n - 1);
      }
    }
  }

  /** The longest run reaches 3 exactly when three consecutive rows of
      [y0, y) satisfy g. */
  lemma {:induction false} MaxRunAtLeastThree(g: int -> bool, y0: int, y: int)
    ensures MaxRun(g, y0, y) >= 3 <==> exists k :: y0 <= k && k + 3 <= y && Three(g, k)
    decreases y - y0
  {
    if y > y0 {
      MaxRunAtLeastThree(g, y0, y - 1);
      if y - y0 >= 3 {
        RunEndingMeans(g, y0, y, 3);
        if RunEnding(g, y0, y) >= 3 {
          assert Three(g, y - 3);
        }
      } else if RunEnding(g, y0, y) >= 3 {
        RunEndingLimit(g, y0, y);
      }
      if exists k :: y0 <= k && k + 3 <= y && Three(g, k) {
        var k :| y0 <= k && k + 3 <= y && Three(g, k);
        if k + 3 == y {
          RunEndingMeans(g, y0, y, 3);
        } else {
          assert y0 <= k && k + 3 <= y - 1 && Three(g, k);
        }
      }
    }
  }

  /** A run cannot be longer than the rows it is counted over. */
  lemma {:induction false} RunEndingLimit(g: int -> bool, y0: int, y: int)
    ensures RunEnding(g, y0, y) <= if y > y0 then y - y0 else 0
    decreases y - y0
  {
    if y > y0 {
      RunEndingLimit(g, y0, y - 1);
    }
  }

  // ---------------------------------------------------------------------
  // Collecting the points a scan meets

  /** The points (x, y), x in [x0, x1), that pass f, left to right. */
  function RowHits(f: (int, int) -> bool, y: int, x0: int, x1: int): seq<(int, int)>
    decreases x1 - x0
  {
    if x1 <= x0 then [] else RowHits(f, y, x0, x1 - 1) + (if f(x1 - 1, y) then [(x1 - 1, y)] else [])
  }

  /** The points of [x0, x1) × [y0, y1) that pass f, in row-major order. */
  function BandHits(f: (int, int) -> bool, y0: int, y1: int, x0: int, x1: int): seq<(int, int)>
    decreases y1 - y0
  {
    if y1 <= y0 then [] else BandHits(f, y0, y1 - 1, x0, x1) + RowHits(f, y1 - 1, x0, x1)
  }

  /** Strictly increasing in row-major order: rows first, then columns;
      in particular no point occurs twice. */
  predicate ScanOrdered(s: seq<(int, int)>) {
    forall i, j :: 0 <= i < j < |s| ==> s[i].1 < s[j].1 || (s[i].1 == s[j].1 && s[i].0 < s[j].0)
  }

  /** A row's hits are exactly its passing points, in order, as many as
      CountRow counts. */
  lemma {:induction false} RowHitsSpec(f: (int, int) -> bool, y: int, x0: int, x1: int)
    ensures |RowHits(f, y, x0, x1)| == CountRow(f, y, x0, x1)
    ensures forall p :: p in RowHits(f, y, x0, x1) <==> x0 <= p.0 < x1 && p.1 == y && f(p.0, p.1)
    ensures ScanOrdered(RowHits(f, y, x0, x1))
    decreases x1 - x0
  {
    if x1 > x0 {
      RowHitsSpec(f, y, x0, x1 - 1);
      var s: seq<(int, int)> := RowHits(f, y, x0, x1 - 1);
      var t: seq<(int, int)> := if f(x1 - 1, y) then [(x1 - 1, y)] else [];
      assert RowHits(f, y, x0, x1) == s + t;
      var u: seq<(int, int)> := s + t;
      forall i, j | 0 <= i < j < |u|
        ensures u[i].1 < u[j].1 || (u[i].1 == u[j].1 && u[i].0 < u[j].0)
      {
        if j >= |s| {
          assert s[i] in s;
        }
      }
    }
  }

  /** A band's hits are exactly its passing points, in row-major order, as
      many as CountBand counts. */
  lemma {:induction false} BandHitsSpec(f: (int, int) -> bool, y0: int, y1: int, x0: int, x1: int)
    ensures |BandHits(f, y0, y1, x0, x1)| == CountBand(f, y0, y1, x0, x1)
    ensures forall p :: p in BandHits(f, y0, y1, x0, x1) <==> y0 <= p.1 < y1 && x0 <= p.0 < x1 && f(p.0, p.1)
    ensures ScanOrdered(BandHits(f, y0, y1, x0, x1))
    decreases y1 - y0
  {
    if y1 > y0 {
      BandHitsSpec(f, y0, y1 - 1, x0, x1);
      RowHitsSpec(f, y1 - 1, x0, x1);
      var s: seq<(int, int)> := BandHits(f, y0, y1 - 1, x0, x1);
      var t: seq<(int, int)> := RowHits(f, y1 - 1, x0, x1);
      assert BandHits(f, y0, y1, x0, x1) == s + t;
      var u: seq<(int, int)> := s + t;
      forall i, j | 0 <= i < j < |u|
        ensures u[i].1 < u[j].1 || (u[i].1 == u[j].1 && u[i].0 < u[j].0)
      {
        if i < |s| && j >= |s| {
          assert s[i] in s;
          assert t[j - |s|] in t;
        } else if i >= |s| {
          assert u[i] == t[i - |s|] && u[j] == t[j - |s|];
        }
      }
    }
  }
}
